/** Content types that strip_boundary_element goes on changing: late settling, and none at all. */
module StrippingAgain {
  import opened Wrappers
  import opened Text
  import opened Envelopes
  import opened HeaderLists
  import opened ParamLists
  import opened ParamTrips
  import opened ContentTypes

  predicate PlainName(name: string) {
    GoodName(name) && ';' !in name && '"' !in name && '\\' !in name && !EqNoCase(name, "boundary")
  }

  /** What is printed of a content type with one parameter. */
  lemma OneParameter(base: string, name: string, text: string)
    requires forall i :: 0 <= i < |base| ==> base[i] != ';' && base[i] != '"'
    requires PlainName(name)
    requires SegmentEnd(text + ";") == |text|
    ensures Reprinted(base + ("; " + (name + ("=" + text)))) == base + ("; " + (name + ("=" + PrintValue(Bare(text)))))
  {
    var v, segment := base + ("; " + (name + ("=" + text))), " " + (name + ("=" + text));
    assert v == base + (";" + segment);
    PlainScan(v, 0, |base|);
    assert BaseOf(v) == base && ParamsOf(v) == segment;
    OneSegment(segment, name, text);
    NamedIsParsed(" ", name, text);
    KeptOne(Header(StripRight(name), Bare(text)));
  }

  lemma KeptOne(h: Header)
    requires !EqNoCase(h.name, "boundary")
    ensures Without([h] + [], "boundary") == [h]
  {
    assert [h] + [] == [h] && [h][1..] == [] && Without([], "boundary") == [];
  }

  lemma KeptTwo(h: Header, h': Header)
    requires !EqNoCase(h.name, "boundary") && !EqNoCase(h'.name, "boundary")
    ensures Without([h] + ([h'] + []), "boundary") == [h] + [h']
  {
    KeptOne(h');
    assert ([h] + ([h'] + []))[1..] == [h'] + [];
  }

  lemma OneSegment(segment: string, name: string, text: string)
    requires segment == " " + (name + ("=" + text)) && ';' !in name && '"' !in name && SegmentEnd(text + ";") == |text|
    ensures Parse(segment) == ParseOne(segment) + []
  {
    var front := " " + (name + "=");
    assert segment + ";" == front + (text + ";");
    PlainScan(front + (text + ";"), 0, |front|);
    ScanShift(front, text + ";", 0);
    assert segment + ";" == segment + (";" + "");
    SegmentIsRead(segment, "");
    assert ParseAll("") == [];
  }

  function InQuotes(a: string): string {
    "\"" + (a + "\"")
  }

  /** Text that needs no quotes and has none. */
  predicate Simple(a: string) {
    !NeedsQuotes(a) && '"' !in a
  }

  lemma OnceQuoted(a: string)
    requires Simple(a)
    ensures SegmentEnd(InQuotes(a) + ";") == |InQuotes(a)| && Bare(InQuotes(a)) == a && !NeedsQuotes(InQuotes(a))
  {
    OnceScanned(a);
    Unquoted(a);
    assert forall i :: 0 <= i < |a| ==> !IsSpace(a[i]);
    assert Trimmed(a);
    StrippedIsTrimmed(a);
    forall i | 0 <= i < |InQuotes(a)| ensures !IsSpace(InQuotes(a)[i]) && !IsSpecial(InQuotes(a)[i]) {
      assert 1 <= i <= |a| ==> InQuotes(a)[i] == a[i - 1];
    }
  }

  lemma OnceScanned(a: string)
    requires Simple(a)
    ensures SegmentEnd(InQuotes(a) + ";") == |InQuotes(a)|
  {
    var t := InQuotes(a) + ";";
    assert forall k :: 1 <= k < 1 + |a| ==> t[k] == a[k - 1] && !IsSpecial(a[k - 1]);
    QuotedScan(t, 1, 1 + |a|);
    assert ScanEnd(t, |a| + 2) == |a| + 2;
  }

  lemma Unquoted(a: string)
    ensures Bare(InQuotes(a)) == StripBlanks(a)
  {
    var q := InQuotes(a);
    StrippedIsTrimmed(q);
    assert q[1..] == a + "\"" && (a + "\"")[..|a|] == a;
  }

  lemma TwiceQuoted(a: string)
    requires Simple(a)
    ensures var q := InQuotes(InQuotes(a)); SegmentEnd(q + ";") == |q| && Bare(q) == InQuotes(a)
  {
    var t := InQuotes(InQuotes(a)) + ";";
    var n := |a| + 2;
    assert forall k :: 2 <= k < n ==> t[k] == a[k - 2] && !IsSpecial(a[k - 2]);
    QuotedScan(t, 1, 1);
    PlainScan(t, 2, n);
    QuotedScan(t, n + 1, n + 1);
    Unquoted(InQuotes(a));
    StrippedIsTrimmed(InQuotes(a));
  }

  /** A value in quotes that needs none comes back without them. */
  lemma QuotesAreLost(name: string, a: string)
    requires PlainName(name) && Simple(a)
    ensures var l := [Header(name, InQuotes(a))]; Parse(Print(l)) != l
  {
    OnceQuoted(a);
    ParamsRoundTripIff([Header(name, InQuotes(a))]);
  }

  /** Where stripping does not settle at once: a value in two pairs of quotes loses one pair each time. */
  lemma QuotesSettleLate(base: string, name: string, a: string)
    requires forall i :: 0 <= i < |base| ==> base[i] != ';' && base[i] != '"'
    requires PlainName(name) && Simple(a)
    ensures Reprinted(base + ("; " + (name + ("=" + InQuotes(InQuotes(a)))))) == base + ("; " + (name + ("=" + InQuotes(a))))
    ensures Reprinted(base + ("; " + (name + ("=" + InQuotes(a))))) == base + ("; " + (name + ("=" + a)))
  {
    OnceQuoted(a);
    TwiceQuoted(a);
    OneParameter(base, name, InQuotes(InQuotes(a)));
    OneParameter(base, name, InQuotes(a));
  }

  // ---- stripping that never settles ----

  lemma TwoParameters(base: string, a: string, text: string, b: string, more: string)
    requires forall i :: 0 <= i < |base| ==> base[i] != ';' && base[i] != '"'
    requires PlainName(a) && PlainName(b) && SegmentEnd(text + ";") == |text| && SegmentEnd(more + ";") == |more|
    ensures Reprinted(base + ("; " + (a + ("=" + text) + ("; " + (b + ("=" + more))))))
         == base + ("; " + (a + ("=" + PrintValue(Bare(text))) + ("; " + (b + ("=" + PrintValue(Bare(more)))))))
  {
    var one, two := " " + (a + ("=" + text)), " " + (b + ("=" + more));
    var v := base + ("; " + (a + ("=" + text) + ("; " + (b + ("=" + more)))));
    assert v == base + (";" + (one + (";" + two)));
    PlainScan(v, 0, |base|);
    assert BaseOf(v) == base && ParamsOf(v) == one + (";" + two);
    TwoSegments(one, a, text, two, b, more);
    NamedIsParsed(" ", a, text);
    NamedIsParsed(" ", b, more);
    var h, h' := Header(StripRight(a), Bare(text)), Header(StripRight(b), Bare(more));
    KeptTwo(h, h');
    PrintedTwo(h, h');
  }

  lemma PrintedTwo(h: Header, h': Header)
    ensures Print([h] + [h']) == PrintOne(h) + ("; " + PrintOne(h'))
  {
    assert ([h] + [h'])[1..] == [h'];
  }

  lemma TwoSegments(one: string, a: string, text: string, two: string, b: string, more: string)
    requires one == " " + (a + ("=" + text)) && ';' !in a && '"' !in a && SegmentEnd(text + ";") == |text|
    requires two == " " + (b + ("=" + more)) && ';' !in b && '"' !in b && SegmentEnd(more + ";") == |more|
    ensures Parse(one + (";" + two)) == ParseOne(one) + (ParseOne(two) + [])
  {
    var front := " " + (a + "=");
    var t := one + (";" + (two + ";"));
    assert t == front + (text + ";" + (two + ";")) && one + (";" + two) + ";" == t;
    PlainScan(front + (text + ";" + (two + ";")), 0, |front|);
    EndIsLocal(text + ";", two + ";");
    ScanShift(front, text + ";" + (two + ";"), 0);
    SegmentIsRead(one, two + ";");
    OneSegment(two, b, more);
  }

  /** A value with a quote inside, and all that follows up to the next quote in another value. */
  function Spanning(x: string, y: string, b: string, z: string, u: string): string {
    x + ("\"" + (y + ("; " + (b + ("=" + z))) + ("\"" + u)))
  }

  predicate SimpleWord(a: string) {
    a != "" && Simple(a)
  }

  lemma SpanningScanned(x: string, y: string, b: string, z: string, u: string)
    requires SimpleWord(x) && SimpleWord(y) && SimpleWord(z) && SimpleWord(u) && PlainName(b)
    ensures var w := Spanning(x, y, b, z, u); SegmentEnd(w + ";") == |w| && Bare(w) == w && NeedsQuotes(w)
  {
    var inner := y + ("; " + (b + ("=" + z)));
    var w := x + ("\"" + (inner + ("\"" + u)));
    SimpleChars(x);
    SimpleChars(y);
    SimpleChars(z);
    SimpleChars(u);
    assert forall k :: 0 <= k < |inner| ==> inner[k] != '"' && inner[k] != '\\';
    QuotedInside(x, inner, u);
    assert w[0] == x[0] && w[|w| - 1] == u[|u| - 1];
    StrippedIsTrimmed(w);
    assert w[|x| + 1 + |y|] == ';';
  }

  lemma QuotedInside(x: string, inner: string, u: string)
    requires Simple(x) && Simple(u) && forall k :: 0 <= k < |inner| ==> inner[k] != '"' && inner[k] != '\\'
    ensures var w := x + ("\"" + (inner + ("\"" + u))); SegmentEnd(w + ";") == |w|
  {
    var w := x + ("\"" + (inner + ("\"" + u)));
    var t, m := w + ";", |x| + 1 + |inner|;
    SimpleChars(x);
    SimpleChars(u);
    assert forall k :: 0 <= k < |x| ==> t[k] == x[k];
    PlainScan(t, 0, |x|);
    assert forall k :: |x| < k < m ==> t[k] == inner[k - |x| - 1];
    QuotedScan(t, |x| + 1, m);
    assert forall k :: m < k <= m + |u| ==> t[k] == u[k - m - 1];
    PlainScan(t, m + 1, |w|);
  }

  lemma SimpleChars(a: string)
    requires Simple(a)
    ensures forall i :: 0 <= i < |a| ==> !IsSpace(a[i]) && !IsSpecial(a[i]) && a[i] != '"'
  {
  }

  function Half(x: string, y: string): string {
    x + ("\"" + y)
  }

  lemma HalfIs(x: string, y: string)
    requires SimpleWord(x) && SimpleWord(y)
    ensures var h := Half(x, y);
            h != "" && Trimmed(h) && !NeedsQuotes(h) && h[0] != '"' && h[|h| - 1] != '"' && PrintValue(h) == h
  {
    SimpleChars(x);
    SimpleChars(y);
    var h := Half(x, y);
    forall i | 0 <= i < |h| ensures !IsSpace(h[i]) && !IsSpecial(h[i]) {
      assert i < |x| ==> h[i] == x[i];
      assert i > |x| ==> h[i] == y[i - |x| - 1];
    }
  }

  lemma FrontQuoted(x: string, y: string)
    requires SimpleWord(x) && SimpleWord(y)
    ensures var t := "\"" + Half(x, y); SegmentEnd(t + ";") == |t| && Bare(t) == Half(x, y)
  {
    var t := "\"" + Half(x, y);
    FrontScanned(x, y);
    HalfIs(x, y);
    assert t[|t| - 1] == Half(x, y)[|Half(x, y)| - 1] && t[1..] == Half(x, y);
    StrippedIsTrimmed(t);
    StrippedIsTrimmed(Half(x, y));
  }

  lemma FrontScanned(x: string, y: string)
    requires SimpleWord(x) && SimpleWord(y)
    ensures var t := "\"" + Half(x, y); SegmentEnd(t + ";") == |t|
  {
    var t := "\"" + Half(x, y);
    var T := t + ";";
    SimpleChars(x);
    SimpleChars(y);
    assert forall k :: 1 <= k < 1 + |x| ==> T[k] == x[k - 1];
    QuotedScan(T, 1, 1 + |x|);
    assert forall k :: |x| + 2 <= k < |t| ==> T[k] == y[k - |x| - 2];
    PlainScan(T, |x| + 2, |t|);
  }

  lemma BackQuoted(x: string, y: string)
    requires SimpleWord(x) && SimpleWord(y)
    ensures var t := Half(x, y) + "\""; SegmentEnd(t + ";") == |t| && Bare(t) == Half(x, y)
  {
    var t := Half(x, y) + "\"";
    BackScanned(x, y);
    HalfIs(x, y);
    assert t[0] == Half(x, y)[0] && t[..|t| - 1] == Half(x, y);
    StrippedIsTrimmed(t);
    StrippedIsTrimmed(Half(x, y));
  }

  lemma BackScanned(x: string, y: string)
    requires SimpleWord(x) && SimpleWord(y)
    ensures var t := Half(x, y) + "\""; SegmentEnd(t + ";") == |t|
  {
    var t := Half(x, y) + "\"";
    var T := t + ";";
    SimpleChars(x);
    SimpleChars(y);
    assert forall k :: 0 <= k < |x| ==> T[k] == x[k];
    PlainScan(T, 0, |x|);
    assert forall k :: |x| + 1 <= k < |x| + 1 + |y| ==> T[k] == y[k - |x| - 1];
    QuotedScan(T, |x| + 1, |x| + 1 + |y|);
    assert ScanEnd(T, |t|) == |t|;
  }

  lemma SpanningParts(a: string, b: string, x: string, y: string, z: string, u: string)
    ensures a + ("=" + InQuotes(Spanning(x, y, b, z, u))) == a + ("=" + ("\"" + Half(x, y))) + ("; " + (b + ("=" + (Half(z, u) + "\""))))
    ensures a + ("=" + Spanning(x, y, b, z, u)) == a + ("=" + Half(x, y)) + ("; " + (b + ("=" + Half(z, u))))
  {
    SpanningHalves(b, x, y, z, u);
    var h, k := Half(x, y), "; " + (b + ("=" + Half(z, u)));
    Regroup("\"", h + k, "\"");
    Regroup("\"" + h, k, "\"");
    Regroup("\"", h, k);
    assert k + "\"" == "; " + (b + ("=" + (Half(z, u) + "\"")));
    Regroup(a, "=" + ("\"" + h), k + "\"");
    Regroup("=", "\"" + h, k + "\"");
    Regroup(a, "=" + h, k);
    Regroup("=", h, k);
  }

  lemma SpanningHalves(b: string, x: string, y: string, z: string, u: string)
    ensures Spanning(x, y, b, z, u) == Half(x, y) + ("; " + (b + ("=" + Half(z, u))))
  {
  }

  /** Where stripping never settles: the two spellings turn into each other each time. */
  lemma StrippingOscillates(base: string, a: string, b: string, x: string, y: string, z: string, u: string)
    requires forall i :: 0 <= i < |base| ==> base[i] != ';' && base[i] != '"'
    requires PlainName(a) && PlainName(b) && SimpleWord(x) && SimpleWord(y) && SimpleWord(z) && SimpleWord(u)
    ensures var v := base + ("; " + (a + ("=" + Spanning(x, y, b, z, u))));
            var w := base + ("; " + (a + ("=" + InQuotes(Spanning(x, y, b, z, u)))));
            Reprinted(v) == w && Reprinted(w) == v && v != w
  {
    SpanningScanned(x, y, b, z, u);
    OneParameter(base, a, Spanning(x, y, b, z, u));
    SpanningParts(a, b, x, y, z, u);
    FrontQuoted(x, y);
    BackQuoted(z, u);
    HalfIs(x, y);
    HalfIs(z, u);
    TwoParameters(base, a, "\"" + Half(x, y), b, Half(z, u) + "\"");
    assert |InQuotes(Spanning(x, y, b, z, u))| == |Spanning(x, y, b, z, u)| + 2;
  }

  lemma PlainBase(base: string, rest: string)
    requires forall i :: 0 <= i < |base| ==> base[i] != ';' && base[i] != '"'
    ensures BaseOf(base + ("; " + rest)) == base
  {
    var v := base + ("; " + rest);
    PlainScan(v, 0, |base|);
    assert v[|base|] == ';' && v[..|base|] == base;
  }

  lemma Swapped(front: seq<Header>, v: string, w: string)
    requires NoneCalled(front, "Content-Type") && Trimmed(w) && !IsDrm(v) && Reprinted(v) == w
    ensures StripBoundary(front + [Header("Content-Type", v)]) == front + [Header("Content-Type", w)]
  {
    StripLast(front, Header("Content-Type", v));
    StrippedIsTrimmed(w);
  }

  function TypeText(base: string, name: string, text: string): string {
    base + ("; " + (name + ("=" + text)))
  }

  lemma PlainTypeText(base: string, name: string, text: string)
    requires forall i :: 0 <= i < |base| ==> base[i] != ';' && base[i] != '"'
    requires Trimmed(base) && text != "" && !IsSpace(text[|text| - 1])
    ensures Trimmed(TypeText(base, name, text)) && BaseOf(TypeText(base, name, text)) == base
  {
    var rest := name + ("=" + text);
    var v := base + ("; " + rest);
    PlainBase(base, rest);
    LastOf(name, text);
    assert v[|v| - 1] == rest[|rest| - 1] && v[0] == if base == "" then ';' else base[0];
  }

  lemma LastOf(a: string, s: string)
    requires s != "" && !IsSpace(s[|s| - 1])
    ensures var t := a + ("=" + s); t != "" && !IsSpace(t[|t| - 1])
  {
  }

  lemma SpanningEnds(x: string, y: string, b: string, z: string, u: string)
    requires SimpleWord(u)
    ensures var s := Spanning(x, y, b, z, u); s != "" && !IsSpace(s[|s| - 1])
  {
    SimpleChars(u);
    assert Spanning(x, y, b, z, u)[|Spanning(x, y, b, z, u)| - 1] == u[|u| - 1];
  }

  /** Main result: whatever the other headers, there are content types that two strippings leave alone but one
      changes, so that no number of fix-ups settles them. */
  lemma HeadersOscillate(front: seq<Header>, base: string, a: string, b: string, x: string, y: string, z: string, u: string)
    requires NoneCalled(front, "Content-Type")
    requires forall i :: 0 <= i < |base| ==> base[i] != ';' && base[i] != '"'
    requires Trimmed(base) && SearchNoCase(base, "application/vnd.oma.drm") != 0
    requires PlainName(a) && PlainName(b) && SimpleWord(x) && SimpleWord(y) && SimpleWord(z) && SimpleWord(u)
    ensures var s := Spanning(x, y, b, z, u);
            var v, w := TypeText(base, a, s), TypeText(base, a, InQuotes(s));
            && v != w && StripBoundary(front + [Header("Content-Type", v)]) == front + [Header("Content-Type", w)]
            && StripBoundary(front + [Header("Content-Type", w)]) == front + [Header("Content-Type", v)]
  {
    var s := Spanning(x, y, b, z, u);
    StrippingOscillates(base, a, b, x, y, z, u);
    SpanningEnds(x, y, b, z, u);
    PlainTypeText(base, a, s);
    PlainTypeText(base, a, InQuotes(s));
    Swapped(front, TypeText(base, a, s), TypeText(base, a, InQuotes(s)));
    Swapped(front, TypeText(base, a, InQuotes(s)), TypeText(base, a, s));
  }
}
