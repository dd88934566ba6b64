/** Content types and their parameters: split_header_value and strip_boundary_element. */
module ContentTypes {
  import opened Wrappers
  import opened Text
  import opened Envelopes
  import opened HeaderLists
  import opened ParamLists
  import opened ParamTrips

  // ---- what the program does ----

  function BaseOf(v: string): string {
    v[..SegmentEnd(v)]
  }

  function ParamsOf(v: string): string {
    if SegmentEnd(v) < |v| then v[SegmentEnd(v) + 1..] else ""
  }

  /** split_header_value: the text up to the first semicolon outside quotes, and the text behind that. */
  method SplitHeaderValue(v: string) returns (base: string, params: string)
    ensures base == BaseOf(v) && params == ParamsOf(v)
  {
    var i: nat := 0;
    while i < |v| && v[i] != ';'
      invariant i <= |v| && ScanEnd(v, i) == SegmentEnd(v)
      decreases |v| - i
    {
      i := if v[i] == '"' then QuotedEnd(v, i + 1) else i + 1;
    }
    base := v[..i];
    params := if i < |v| then v[i + 1..] else "";
  }

  /** DRM_CONTENT_TYPE. */
  predicate IsDrm(v: string) {
    SearchNoCase(BaseOf(v), "application/vnd.oma.drm") == 0
  }

  /** The parameters of a content type but for a boundary. */
  function Kept(v: string): seq<Header> {
    Without(Parse(ParamsOf(v)), "boundary")
  }

  function WithParams(base: string, ps: string): string {
    if ps == "" then base else base + ("; " + ps)
  }

  /** A content type printed again without its boundary. */
  function Reprinted(v: string): string {
    WithParams(BaseOf(v), Print(Kept(v)))
  }

  /** strip_boundary_element: the content type goes to the end, without a boundary; DRM types stay as they are. */
  function StripBoundary(h: seq<Header>): seq<Header> {
    match HeaderValue(h, "Content-Type")
    case None => h
    case Some(v) => if IsDrm(v) then h else Without(h, "Content-Type") + [NewHeader("Content-Type", Reprinted(v))]
  }

  // ---- when a content type is printed as it was ----

  /** No parameters, or parameters in the printer's spelling without a boundary. */
  predicate CanonicalType(v: string) {
    var n := SegmentEnd(v);
    n == |v| || (Spaced(v, n) && Canonical(v[n + 2..]))
  }

  /** The base of a content type with parameters ends there, whatever follows the semicolon. */
  lemma BaseEnds(v: string, rest: string)
    requires SegmentEnd(v) < |v|
    ensures SegmentEnd(BaseOf(v) + (";" + rest)) == |BaseOf(v)|
  {
    var a := BaseOf(v) + ";";
    var more := v[SegmentEnd(v) + 1..];
    assert v == a + more;
    EndIsLocal(a, more);
    EndIsLocal(a, rest);
    assert a + rest == BaseOf(v) + (";" + rest);
  }

  /** What is printed of a list does not end in a blank. */
  lemma {:induction false} PrintEnds(l: seq<Header>)
    requires AllLikeParsed(l)
    ensures l != [] ==> Print(l) != "" && !IsSpace(Print(l)[|Print(l)| - 1])
  {
    if |l| > 1 {
      PrintEnds(l[1..]);
    }
  }

  lemma KeptLikeParsed(v: string)
    ensures AllLikeParsed(Kept(v))
    ensures Print(Kept(v)) == "" <==> Kept(v) == []
  {
    ParsedLikeParsed(ParamsOf(v) + ";");
    WithoutLikeParsed(Parse(ParamsOf(v)), "boundary");
    PrintEnds(Kept(v));
  }

  /** Printed again, a trimmed content type is trimmed, unless it lost all its parameters. */
  lemma ReprintedTrimmed(v: string)
    requires Trimmed(v) && Kept(v) != []
    ensures Trimmed(Reprinted(v))
  {
    KeptLikeParsed(v);
    PrintEnds(Kept(v));
    NoParams(v);
    var ps := Print(Kept(v));
    assert Reprinted(v)[|Reprinted(v)| - 1] == ps[|ps| - 1];
  }

  lemma NoParams(v: string)
    ensures ParamsOf(v) == "" ==> Kept(v) == []
  {
    if ParamsOf(v) == "" {
      ParamsRoundTrip([]);
      assert Print([]) == "";
    }
  }

  /** Main result: stripping leaves a content type as it is exactly when it is trimmed, and has no parameters or
      has them in the printer's spelling and no boundary among them. */
  lemma TypeStaysIff(v: string)
    ensures StripBlanks(Reprinted(v)) == v <==> Trimmed(v) && CanonicalType(v)
  {
    StrippedIsTrimmed(Reprinted(v));
    if Trimmed(v) {
      if SegmentEnd(v) == |v| {
        BareTypeStays(v);
      } else {
        ParamsStayIff(v);
      }
    }
  }

  lemma BareTypeStays(v: string)
    requires SegmentEnd(v) == |v|
    ensures Reprinted(v) == v
  {
    NoParams(v);
  }

  lemma ParamsStayIff(v: string)
    requires Trimmed(v) && SegmentEnd(v) < |v|
    ensures StripBlanks(Reprinted(v)) == v <==> CanonicalType(v)
  {
    var n := SegmentEnd(v);
    KeptLikeParsed(v);
    StrippedIsTrimmed(Reprinted(v));
    if Kept(v) != [] {
      ReprintedTrimmed(v);
      StrippedIsTrimmed(Reprinted(v));
    }
    if Spaced(v, n) {
      SpacedIff(v, n);
    } else if Kept(v) != [] {
      assert Reprinted(v)[n + 1] == ' ';
    }
  }

  /** Behind a semicolon and a blank the parameters have to be as they are printed. */
  lemma SpacedIff(v: string, n: nat)
    requires n == SegmentEnd(v) && Spaced(v, n) && Trimmed(v)
    ensures Reprinted(v) == v <==> Canonical(v[n + 2..])
  {
    var q := v[n + 2..];
    assert ParamsOf(v) == " " + q && q != "";
    CanonicalIff(q);
    SameSplit(v, n, Print(Kept(v)));
  }

  lemma SameSplit(v: string, n: nat, ps: string)
    requires Spaced(v, n)
    ensures v[..n] + ("; " + ps) == v <==> ps == v[n + 2..]
  {
    var q := v[n + 2..];
    assert v == v[..n] + ("; " + q);
    if v[..n] + ("; " + ps) == v {
      assert (v[..n] + ("; " + ps))[n + 2..] == ps;
    }
  }

  // ---- headers ----

  /** strip_boundary_element neither brings in a name nor takes one away. */
  lemma StripKeepsNames(h: seq<Header>, name: string)
    ensures NoneCalled(StripBoundary(h), name) <==> NoneCalled(h, name)
  {
    NoneIsMissing(h, "Content-Type");
    var v := HeaderValue(h, "Content-Type");
    if v.Some? && !IsDrm(v.value) {
      var x := NewHeader("Content-Type", Reprinted(v.value));
      WithoutOthers(h, "Content-Type", name);
      OneMoreCalled(Without(h, "Content-Type"), x, name);
      if EqNoCase("Content-Type", name) {
        SameName(h, "Content-Type", name);
      }
    }
  }

  lemma {:induction false} SameName(h: seq<Header>, a: string, b: string)
    requires EqNoCase(a, b)
    ensures NoneCalled(h, a) <==> NoneCalled(h, b)
  {
    if h != [] {
      SameName(h[1..], a, b);
    }
  }

  predicate DrmTyped(h: seq<Header>) {
    HeaderValue(h, "Content-Type").Some? && IsDrm(HeaderValue(h, "Content-Type").value)
  }

  /** A header list gets shorter under strip_boundary_element exactly when it has several content types, and the
      first is no DRM type. */
  lemma StripCountsIff(h: seq<Header>)
    ensures |StripBoundary(h)| == |h| <==> NoneCalled(h, "Content-Type") || CalledOnce(h, "Content-Type") || DrmTyped(h)
  {
    NoneIsMissing(h, "Content-Type");
    WithoutCounts(h, "Content-Type");
  }

  /** Of two content types one is left. */
  lemma OneTypeIsLeft(v: string, w: string)
    requires !IsDrm(v)
    ensures |StripBoundary([Header("Content-Type", v), Header("Content-Type", w)])| == 1
  {
    var a, b := Header("Content-Type", v), Header("Content-Type", w);
    assert [a, b][1..] == [b] && [b][1..] == [];
    WithoutOthers([a, b], "Content-Type", "Content-Type");
    assert EqNoCase(a.name, "Content-Type") && EqNoCase(b.name, "Content-Type");
    assert Without([], "Content-Type") == [];
    assert Without([b], "Content-Type") == [] + [];
    assert Without([a, b], "Content-Type") == [] + Without([b], "Content-Type");
  }

  /** Where the content type is the last header, and the only one, strip_boundary_element looks at nothing else. */
  lemma StripLast(front: seq<Header>, x: Header)
    requires NoneCalled(front, "Content-Type") && EqNoCase(x.name, "Content-Type")
    ensures StripBoundary(front + [x]) == front + [StrippedType(x)]
  {
    LastIsFound(front, x, "Content-Type");
    WithoutLast(front, x, "Content-Type");
    NoneIsMissing(front, "Content-Type");
    assert front + [] == front;
  }

  /** What becomes of a content type. */
  function StrippedType(x: Header): Header {
    if IsDrm(x.value) then x else NewHeader("Content-Type", Reprinted(x.value))
  }

  /** A content type that strip_boundary_element leaves as it is: a DRM type, or one spelled as the printer spells it. */
  predicate SettledType(x: Header) {
    IsDrm(x.value) || (x.name == "Content-Type" && Trimmed(x.value) && CanonicalType(x.value))
  }

  lemma StrippedTypeIff(x: Header)
    ensures StrippedType(x) == x <==> SettledType(x)
  {
    TypeStaysIff(x.value);
  }

  /** The headers have no content type, a DRM type, or one that does not need stripping. */
  predicate Settled(h: seq<Header>) {
    var v := HeaderValue(h, "Content-Type");
    v.Some? ==> IsDrm(v.value) || CanonicalType(v.value)
  }

  /** Main result: stripping headers that were stripped changes nothing exactly when the content type that the
      first time left is a DRM type, or spelled as the printer spells it. */
  lemma StripSettlesIff(h: seq<Header>)
    ensures StripBoundary(StripBoundary(h)) == StripBoundary(h) <==> Settled(StripBoundary(h))
  {
    var v := HeaderValue(h, "Content-Type");
    if v.Some? && !IsDrm(v.value) {
      var front, x := Without(h, "Content-Type"), NewHeader("Content-Type", Reprinted(v.value));
      WithoutOthers(h, "Content-Type", "Content-Type");
      LastIsFound(front, x, "Content-Type");
      StripLast(front, x);
      StrippedTypeIff(x);
      StrippedIsTrimmed(Reprinted(v.value));
      assert (front + [x])[|front|] == x && (front + [StrippedType(x)])[|front|] == StrippedType(x);
    }
  }

  // ---- before the first stripping ----

  /** A trimmed content type is settled after the first time exactly when the parameters that it keeps, if any,
      are printed in a spelling that is parsed into parameters printed the same. */
  lemma OncePrintedIff(v: string)
    requires Trimmed(v)
    ensures CanonicalType(StripBlanks(Reprinted(v))) <==> Kept(v) == [] || Canonical(Print(Kept(v)))
  {
    KeptLikeParsed(v);
    NoParams(v);
    if Kept(v) == [] {
      FrontGoesOn(v, SegmentEnd(v));
      StrippedGoesOn(BaseOf(v));
    } else {
      ReprintedTrimmed(v);
      StrippedIsTrimmed(Reprinted(v));
      BaseEnds(v, " " + Print(Kept(v)));
      PrintedTypeIff(BaseOf(v), Print(Kept(v)));
    }
  }

  lemma PrintedTypeIff(base: string, ps: string)
    requires SegmentEnd(base + (";" + (" " + ps))) == |base|
    ensures CanonicalType(base + ("; " + ps)) <==> Canonical(ps)
  {
    var v := base + ("; " + ps);
    assert v == base + (";" + (" " + ps)) && v[|base| + 2..] == ps && Spaced(v, |base|);
  }

  /** Parameters that survive being printed settle a content type at the first stripping. */
  lemma SurvivorsSettle(v: string)
    requires Trimmed(v) && AllSurvive(Kept(v))
    ensures CanonicalType(StripBlanks(Reprinted(v)))
  {
    OncePrintedIff(v);
    WithoutOthers(Parse(ParamsOf(v)), "boundary", "boundary");
    if Kept(v) != [] {
      PrintIsCanonical(Kept(v));
    }
  }
}
