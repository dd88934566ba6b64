/** What the multipart codec keeps, and what it promises for octets from anywhere. */
module MultipartRoundTrip {
  import opened Wrappers
  import opened Text
  import opened Envelopes
  import opened HeaderLists
  import opened Octets
  import opened Multipart

  /** Every length fits the decoder's int. */
  predicate Fits(hc: HeaderCodec, parts: seq<Part>) {
    && |parts| < 0x8000_0000
    && (parts != [] ==>
          && |hc.pack(parts[0].headers)| < 0x8000_0000 && |ContentOf(hc, parts[0])| < 0x8000_0000
          && Fits(hc, parts[0].parts) && Fits(hc, parts[1..]))
  }

  /** Headers that the packing and unpacking of one part give back. */
  predicate Stable(hc: HeaderCodec, hdrs: seq<Header>) {
    hc.unpack(hc.pack(hdrs)) == hdrs
  }

  /** All headers of the tree are stable. */
  predicate StableTree(hc: HeaderCodec, parts: seq<Part>) {
    parts != [] ==> Stable(hc, parts[0].headers) && StableTree(hc, parts[0].parts) && StableTree(hc, parts[1..])
  }

  /** Containers hold parts, other parts hold a body. */
  predicate Shaped(parts: seq<Part>) {
    parts != [] ==> ShapedPart(parts[0]) && Shaped(parts[1..])
  }

  predicate ShapedPart(p: Part) {
    && ContentType(p.headers).Some?
    && (if IsContainer(ContentType(p.headers).value) then p.body == None else p.parts == [] && p.body.Some?)
    && Shaped(p.parts)
  }

  /** The first part of an encoded list is taken apart at its exact limits. */
  lemma ReadFirst(hc: HeaderCodec, parts: seq<Part>, rest: string)
    requires parts != [] && Fits(hc, parts)
    ensures var hdrs := hc.unpack(hc.pack(parts[0].headers));
            var left := EncodeParts(hc, parts) + rest;
            && left != ""
            && ReadFrame(hc, left) == FrameRead(if ContentType(hdrs) == None then None else Some(Frame(hdrs, ContentOf(hc, parts[0]))),
                                           EncodeParts(hc, parts[1..]) + rest)
  {
    var h := hc.pack(parts[0].headers);
    var b := ContentOf(hc, parts[0]);
    var after := EncodeParts(hc, parts[1..]) + rest;
    Reassociate(UintVar(|h|), UintVar(|b|), h, b, EncodeParts(hc, parts[1..]), rest);
    FrameReadsBack(hc, h, b, after);
  }

  lemma Reassociate(a: string, b: string, c: string, d: string, e: string, f: string)
    ensures a + b + c + d + e + f == a + (b + (c + (d + (e + f))))
  {
  }

  lemma FrameReadsBack(hc: HeaderCodec, h: string, b: string, after: string)
    requires |h| < 0x8000_0000 && |b| < 0x8000_0000
    ensures var left := UintVar(|h|) + (UintVar(|b|) + (h + (b + after)));
            && left != ""
            && ReadFrame(hc, left) == FrameRead(if ContentType(hc.unpack(h)) == None then None else Some(Frame(hc.unpack(h), b)), after)
  {
    UintVarRoundTrip(|h|, UintVar(|b|) + (h + (b + after)));
    UintVarRoundTrip(|b|, h + (b + after));
    assert (h + (b + after))[..|h|] == h && (h + (b + after))[|h|..] == b + after;
    assert (b + after)[..|b|] == b && (b + after)[|b|..] == after;
  }

  lemma ReadCount(hc: HeaderCodec, parts: seq<Part>, rest: string)
    requires Fits(hc, parts)
    ensures ReadBody(hc, EncodeBody(hc, parts) + rest) == ReadParts(hc, |parts|, EncodeParts(hc, parts) + rest)
  {
    assert EncodeBody(hc, parts) + rest == UintVar(|parts|) + (EncodeParts(hc, parts) + rest);
    UintVarRoundTrip(|parts|, EncodeParts(hc, parts) + rest);
  }

  /** A body that holds nothing. */
  lemma EmptyBody(hc: HeaderCodec)
    ensures ReadBody(hc, "") == PartsRead(Some([]), "")
  {
    assert ReadGroups("", 0, 5) == None;
  }

  /** A part of the right shape reads back if the parts inside it do. */
  lemma ContentReadsBack(hc: HeaderCodec, p: Part)
    requires ShapedPart(p) && Fits(hc, p.parts)
    requires p.parts != [] ==> ReadParts(hc, |p.parts|, EncodeParts(hc, p.parts) + "") == PartsRead(Some(p.parts), "")
    ensures ReadContent(hc, Frame(p.headers, ContentOf(hc, p))) == Some(p)
  {
    if p.parts == [] {
      EmptyBody(hc);
    } else {
      ReadCount(hc, p.parts, "");
      assert EncodeBody(hc, p.parts) + "" == ContentOf(hc, p);
    }
  }

  /** The reading loop gets through one more part. */
  predicate Turns(hc: HeaderCodec, n: int, left: string) {
    && n > 0 && left != "" && ReadFrame(hc, left).frame.Some?
    && ReadContent(hc, ReadFrame(hc, left).frame.value).Some?
  }

  lemma ReadOn(hc: HeaderCodec, n: int, left: string)
    requires Turns(hc, n, left)
    ensures var f := ReadFrame(hc, left);
            ReadParts(hc, n, left) == Prepend(ReadContent(hc, f.frame.value).value, ReadParts(hc, n - 1, f.left))
  {
  }

  lemma ReadNoMore(hc: HeaderCodec, n: int, left: string)
    requires !Turns(hc, n, left)
    ensures var r := ReadParts(hc, n, left); r.parts == None || r == PartsRead(Some([]), left)
    ensures n > 0 && left != "" ==> ReadParts(hc, n, left).parts == None
  {
  }

  lemma PrependHead(parts: seq<Part>, rest: string)
    requires parts != []
    ensures Prepend(parts[0], PartsRead(Some(parts[1..]), rest)) == PartsRead(Some(parts), rest)
  {
    assert parts == [parts[0]] + parts[1..];
  }

  /** A list of parts reads back if its tail and the parts inside its head do. */
  lemma ListReadsBack(hc: HeaderCodec, parts: seq<Part>, rest: string)
    requires parts != [] && ShapedPart(parts[0]) && Stable(hc, parts[0].headers) && Fits(hc, parts)
    requires var p := parts[0];
             p.parts != [] ==> ReadParts(hc, |p.parts|, EncodeParts(hc, p.parts) + "") == PartsRead(Some(p.parts), "")
    requires ReadParts(hc, |parts| - 1, EncodeParts(hc, parts[1..]) + rest) == PartsRead(Some(parts[1..]), rest)
    ensures ReadParts(hc, |parts|, EncodeParts(hc, parts) + rest) == PartsRead(Some(parts), rest)
  {
    ContentReadsBack(hc, parts[0]);
    ReadFirst(hc, parts, rest);
    ReadOn(hc, |parts|, EncodeParts(hc, parts) + rest);
    PrependHead(parts, rest);
  }

  lemma {:induction false} PartsReadBack(hc: HeaderCodec, parts: seq<Part>, rest: string)
    requires Shaped(parts) && StableTree(hc, parts) && Fits(hc, parts)
    ensures ReadParts(hc, |parts|, EncodeParts(hc, parts) + rest) == PartsRead(Some(parts), rest)
    decreases parts
  {
    if parts == [] {
      assert EncodeParts(hc, parts) + rest == rest;
    } else {
      if parts[0].parts != [] {
        PartsReadBack(hc, parts[0].parts, "");
      }
      PartsReadBack(hc, parts[1..], rest);
      ListReadsBack(hc, parts, rest);
    }
  }

  // ---- octets from anywhere ----

  /** Parts and octets of content in a tree. */
  function Weight(parts: seq<Part>): nat {
    if parts == [] then 0
    else
      var p := parts[0];
      1 + Weight(p.parts) + OwnOctets(p) + Weight(parts[1..])
  }

  /** How deep containers nest. */
  function Depth(parts: seq<Part>): nat {
    if parts == [] then 0
    else
      var inner, others := 1 + Depth(parts[0].parts), Depth(parts[1..]);
      if inner > others then inner else others
  }

  function OwnOctets(p: Part): nat {
    if p.body.Some? then |p.body.value| else 0
  }

  lemma OneMore(p: Part, more: seq<Part>)
    ensures Weight([p] + more) == 1 + Weight(p.parts) + OwnOctets(p) + Weight(more)
    ensures Depth([p] + more) <= Depth(more) || Depth([p] + more) == 1 + Depth(p.parts)
    ensures ShapedPart(p) && Shaped(more) ==> Shaped([p] + more)
  {
    assert ([p] + more)[1..] == more;
  }

  /** Containers and leaves are told apart by their type alone, in a tree that is at most `n` deep. */
  predicate Sane(r: PartsRead, n: nat) {
    r.parts.Some? ==> Shaped(r.parts.value) && Depth(r.parts.value) <= n
  }

  /** The tree and what is left of the octets weigh no more than `n`. */
  predicate Bounded(r: PartsRead, n: int) {
    r.parts.Some? ==> Weight(r.parts.value) + |r.left| <= n
  }

  lemma PrependKeepsShape(p: Part, more: PartsRead, n: nat)
    requires ShapedPart(p) && Depth(p.parts) < n && Sane(more, n)
    ensures Sane(Prepend(p, more), n)
  {
    if more.parts.Some? {
      OneMore(p, more.parts.value);
    }
  }

  lemma PrependKeepsBound(p: Part, more: PartsRead, n: nat)
    requires Bounded(more, n)
    ensures Bounded(Prepend(p, more), 1 + Weight(p.parts) + OwnOctets(p) + n)
  {
    if more.parts.Some? {
      OneMore(p, more.parts.value);
    }
  }

  lemma TurnKeepsShape(hc: HeaderCodec, n: int, left: string)
    requires Turns(hc, n, left)
    requires var f := ReadFrame(hc, left);
             var p := ReadContent(hc, f.frame.value).value;
             && ShapedPart(p) && Depth(p.parts) <= |f.frame.value.content|
             && Sane(ReadParts(hc, n - 1, f.left), |f.left|)
    ensures Sane(ReadParts(hc, n, left), |left|)
  {
    var f := ReadFrame(hc, left);
    ReadOn(hc, n, left);
    PrependKeepsShape(ReadContent(hc, f.frame.value).value, ReadParts(hc, n - 1, f.left), |left|);
  }

  /** What the decoder makes of any octets has the normal shape, and is no deeper than there are octets. */
  lemma {:induction false} PartsAreShaped(hc: HeaderCodec, n: int, left: string)
    ensures Sane(ReadParts(hc, n, left), |left|)
    decreases |left|, 0, n
  {
    if Turns(hc, n, left) {
      var f := ReadFrame(hc, left);
      ContentIsShaped(hc, f.frame.value);
      PartsAreShaped(hc, n - 1, f.left);
      TurnKeepsShape(hc, n, left);
    } else {
      ReadNoMore(hc, n, left);
    }
  }

  lemma {:induction false} ContentIsShaped(hc: HeaderCodec, f: Frame)
    requires ContentType(f.headers).Some?
    ensures var p := ReadContent(hc, f); p.Some? ==> ShapedPart(p.value) && Depth(p.value.parts) <= |f.content|
    decreases |f.content|, 1
  {
    var n := ReadUintVar(f.content);
    PartsAreShaped(hc, AsInt(n.value), n.left);
  }

  /** A frame takes at least one octet besides its content, unless no headers at all can carry a type. */
  lemma FrameCosts(hc: HeaderCodec, left: string)
    requires left != "" && ContentType(hc.unpack("")) == None
    ensures ReadFrame(hc, left).frame.Some? ==> 1 + |ReadFrame(hc, left).frame.value.content| + |ReadFrame(hc, left).left| <= |left|
  {
    var hlen := ReadUintVar(left);
    if |hlen.left| == |left| {
      assert HeaderBlock(left, 0) == "";
    }
  }

  lemma TurnKeepsBound(hc: HeaderCodec, n: int, left: string)
    requires Turns(hc, n, left) && ContentType(hc.unpack("")) == None
    requires var f := ReadFrame(hc, left);
             var p := ReadContent(hc, f.frame.value).value;
             Weight(p.parts) + OwnOctets(p) <= |f.frame.value.content| && Bounded(ReadParts(hc, n - 1, f.left), |f.left|)
    ensures Bounded(ReadParts(hc, n, left), |left|)
  {
    var f := ReadFrame(hc, left);
    var p := ReadContent(hc, f.frame.value).value;
    ReadOn(hc, n, left);
    FrameCosts(hc, left);
    PrependKeepsBound(p, ReadParts(hc, n - 1, f.left), |f.left|);
  }

  /** The decoder does not make more than it is given: every part, at any depth, is paid for by an octet
      of its own, and contents do not overlap. */
  lemma {:induction false} PartsAreBounded(hc: HeaderCodec, n: int, left: string)
    requires ContentType(hc.unpack("")) == None
    ensures Bounded(ReadParts(hc, n, left), |left|)
    decreases |left|, 0, n
  {
    if Turns(hc, n, left) {
      var f := ReadFrame(hc, left);
      ContentIsBounded(hc, f.frame.value);
      PartsAreBounded(hc, n - 1, f.left);
      TurnKeepsBound(hc, n, left);
    } else {
      ReadNoMore(hc, n, left);
    }
  }

  lemma {:induction false} ContentIsBounded(hc: HeaderCodec, f: Frame)
    requires ContentType(f.headers).Some? && ContentType(hc.unpack("")) == None
    ensures var p := ReadContent(hc, f);
            p.Some? ==> Weight(p.value.parts) + OwnOctets(p.value) <= |f.content|
    decreases |f.content|, 1
  {
    var n := ReadUintVar(f.content);
    PartsAreBounded(hc, AsInt(n.value), n.left);
  }

  /** Whatever decodes has the normal shape, and its parts and contents together are no longer than the octets read. */
  lemma DecodedIsSane(hc: HeaderCodec, left: string)
    requires ContentType(hc.unpack("")) == None && ReadBody(hc, left).parts.Some?
    ensures var r := ReadBody(hc, left);
            Shaped(r.parts.value) && Depth(r.parts.value) <= |left| && Weight(r.parts.value) + |r.left| <= |left|
  {
    var n := ReadUintVar(left);
    PartsAreShaped(hc, AsInt(n.value), n.left);
    PartsAreBounded(hc, AsInt(n.value), n.left);
  }

  // ---- exactly which trees come back ----

  lemma FirstIsRight(hc: HeaderCodec, parts: seq<Part>, left: string)
    requires parts != [] && left != "" && ReadParts(hc, |parts|, left).parts == Some(parts)
    ensures var f := ReadFrame(hc, left);
            && f.frame.Some? && ReadContent(hc, f.frame.value) == Some(parts[0])
            && ReadParts(hc, |parts| - 1, f.left).parts == Some(parts[1..])
  {
    if Turns(hc, |parts|, left) {
      ReadOn(hc, |parts|, left);
    } else {
      ReadNoMore(hc, |parts|, left);
    }
  }

  lemma InnerIsRight(hc: HeaderCodec, p: Part)
    requires p.parts != [] && ContentType(p.headers).Some? && Fits(hc, p.parts)
    requires ReadContent(hc, Frame(p.headers, ContentOf(hc, p))) == Some(p)
    ensures ReadParts(hc, |p.parts|, EncodeParts(hc, p.parts) + "").parts == Some(p.parts)
  {
    ReadCount(hc, p.parts, "");
    assert EncodeBody(hc, p.parts) + "" == ContentOf(hc, p);
  }

  /** If a list of parts comes back, so do its tail and the parts inside its head. */
  lemma SmallerListsReadBack(hc: HeaderCodec, parts: seq<Part>, rest: string)
    requires parts != [] && Fits(hc, parts) && Shaped(parts)
    requires ReadParts(hc, |parts|, EncodeParts(hc, parts) + rest).parts == Some(parts)
    ensures Stable(hc, parts[0].headers)
    ensures ReadParts(hc, |parts| - 1, EncodeParts(hc, parts[1..]) + rest).parts == Some(parts[1..])
    ensures parts[0].parts != [] ==>
              ReadParts(hc, |parts[0].parts|, EncodeParts(hc, parts[0].parts) + "").parts == Some(parts[0].parts)
  {
    ReadFirst(hc, parts, rest);
    FirstIsRight(hc, parts, EncodeParts(hc, parts) + rest);
    if parts[0].parts != [] {
      InnerIsRight(hc, parts[0]);
    }
  }

  /** A tree that comes back has stable headers throughout. */
  lemma {:induction false} WhatReadsBackIsStable(hc: HeaderCodec, parts: seq<Part>, rest: string)
    requires Fits(hc, parts) && Shaped(parts)
    requires ReadParts(hc, |parts|, EncodeParts(hc, parts) + rest).parts == Some(parts)
    ensures StableTree(hc, parts)
    decreases parts
  {
    if parts != [] {
      SmallerListsReadBack(hc, parts, rest);
      WhatReadsBackIsStable(hc, parts[1..], rest);
      if parts[0].parts != [] {
        WhatReadsBackIsStable(hc, parts[0].parts, "");
      }
    }
  }

  /** Main result: reading back what was written gives the same tree, and stops right behind it, exactly when
      containers hold parts and nothing else, other parts hold a body, and all headers are stable. */
  lemma RoundTripIff(hc: HeaderCodec, parts: seq<Part>, rest: string)
    requires Fits(hc, parts)
    ensures Shaped(parts) && StableTree(hc, parts) <==> ReadBody(hc, EncodeBody(hc, parts) + rest) == PartsRead(Some(parts), rest)
    ensures Shaped(parts) && StableTree(hc, parts) <==> ReadBody(hc, EncodeBody(hc, parts) + rest).parts == Some(parts)
  {
    ReadCount(hc, parts, rest);
    if Shaped(parts) && StableTree(hc, parts) {
      PartsReadBack(hc, parts, rest);
    }
    var left := EncodeParts(hc, parts) + rest;
    if ReadParts(hc, |parts|, left).parts == Some(parts) {
      PartsAreShaped(hc, |parts|, left);
      WhatReadsBackIsStable(hc, parts, rest);
    }
  }

  /** A message taken from anywhere and written again reads as the same message, exactly when its headers are stable. */
  lemma ReencodedIff(hc: HeaderCodec, left: string, rest: string)
    requires ReadBody(hc, left).parts.Some? && Fits(hc, ReadBody(hc, left).parts.value)
    ensures var parts := ReadBody(hc, left).parts.value;
            ReadBody(hc, EncodeBody(hc, parts) + rest) == PartsRead(Some(parts), rest) <==> StableTree(hc, parts)
  {
    var n := ReadUintVar(left);
    PartsAreShaped(hc, AsInt(n.value), n.left);
    RoundTripIff(hc, ReadBody(hc, left).parts.value, rest);
  }
}
