/** Which parameter lists come back as they were printed, and which texts are printed as they were parsed. */
module ParamTrips {
  import opened Wrappers
  import opened Text
  import opened Envelopes
  import opened HeaderLists
  import opened ParamLists

  // ---- where a parameter ends ----

  lemma {:induction false} QuotedIsLocal(a: string, b: string, i: nat)
    requires i <= |a|
    ensures if QuotedEnd(a, i) < |a| then QuotedEnd(a + b, i) == QuotedEnd(a, i) else QuotedEnd(a + b, i) >= |a|
    decreases |a| - i
  {
    if i < |a| && a[i] != '"' {
      QuotedIsLocal(a, b, if a[i] == '\\' && i + 1 < |a| then i + 2 else i + 1);
    }
  }

  lemma {:induction false} ScanIsLocal(a: string, b: string, i: nat)
    requires i <= |a|
    ensures if ScanEnd(a, i) < |a| then ScanEnd(a + b, i) == ScanEnd(a, i) else ScanEnd(a + b, i) >= |a|
    decreases |a| - i
  {
    if i < |a| && a[i] != ';' {
      QuotedIsLocal(a, b, i + 1);
      ScanIsLocal(a, b, if a[i] == '"' then QuotedEnd(a, i + 1) else i + 1);
    }
  }

  /** What follows a text moves the end of the parameter only if the text does not end it. */
  lemma EndIsLocal(a: string, b: string)
    ensures if SegmentEnd(a) < |a| then SegmentEnd(a + b) == SegmentEnd(a) else SegmentEnd(a + b) >= |a|
  {
    ScanIsLocal(a, b, 0);
  }

  /** A text that does not end a parameter. */
  predicate GoesOn(s: string) {
    SegmentEnd(s) == |s|
  }

  lemma FrontGoesOn(s: string, k: nat)
    requires k <= |s| && k <= SegmentEnd(s)
    ensures GoesOn(s[..k])
  {
    assert s == s[..k] + s[k..];
    EndIsLocal(s[..k], s[k..]);
  }

  lemma BackGoesOn(s: string)
    requires GoesOn(s) && s != "" && IsSpace(s[0])
    ensures GoesOn(s[1..])
  {
    EndFrom(s, 1);
  }

  lemma {:induction false} StripLeftGoesOn(s: string)
    requires GoesOn(s)
    ensures GoesOn(StripLeft(s)) && (StripLeft(s) == "" || !IsSpace(StripLeft(s)[0]))
  {
    if s != "" && IsSpace(s[0]) {
      BackGoesOn(s);
      StripLeftGoesOn(s[1..]);
    }
  }

  lemma {:induction false} StripRightIsFront(s: string)
    ensures |StripRight(s)| <= |s| && StripRight(s) == s[..|StripRight(s)|]
    ensures StripRight(s) == "" || !IsSpace(StripRight(s)[|StripRight(s)| - 1])
  {
    if s != "" && IsSpace(s[|s| - 1]) {
      StripRightIsFront(s[..|s| - 1]);
    }
  }

  lemma {:induction false} StripLeftIsBack(s: string)
    ensures |StripLeft(s)| <= |s| && StripLeft(s) == s[|s| - |StripLeft(s)|..]
    ensures StripLeft(s) == "" || !IsSpace(StripLeft(s)[0])
  {
    if s != "" && IsSpace(s[0]) {
      StripLeftIsBack(s[1..]);
      assert s[1..][|s| - 1 - |StripLeft(s)|..] == s[|s| - |StripLeft(s)|..];
    }
  }

  lemma StrippedIsTrimmed(s: string)
    ensures Trimmed(StripBlanks(s)) && |StripBlanks(s)| <= |s|
    ensures Trimmed(s) ==> StripBlanks(s) == s
  {
    StripLeftIsBack(s);
    StripRightIsFront(StripLeft(s));
  }

  lemma StrippedGoesOn(s: string)
    requires GoesOn(s)
    ensures GoesOn(StripBlanks(s))
  {
    StripLeftGoesOn(s);
    StripRightIsFront(StripLeft(s));
    FrontGoesOn(StripLeft(s), |StripBlanks(s)|);
  }

  // ---- what the parser puts out ----

  /** What every parsed parameter is like. */
  predicate LikeParsed(h: Header) {
    NameLike(h.name) && Trimmed(h.value)
  }

  predicate NameLike(name: string) {
    '=' !in name && ':' !in name && GoesOn(name) && (name == "" || !IsSpace(name[0]))
  }

  predicate AllLikeParsed(l: seq<Header>) {
    l != [] ==> LikeParsed(l[0]) && AllLikeParsed(l[1..])
  }

  lemma {:induction false} StripKeepsOut(s: string, c: char)
    requires c !in s
    ensures c !in StripBlanks(s)
  {
    StripLeftIsBack(s);
    StripRightIsFront(StripLeft(s));
  }

  lemma OneLikeParsed(segment: string)
    requires GoesOn(segment) && ParseOne(segment) != []
    ensures LikeParsed(ParseOne(segment)[0])
  {
    var j := IndexOf(segment, '=');
    var name := StripBlanks(segment[..j]);
    IndexOfFirst(segment, '=');
    FrontGoesOn(segment, j);
    StrippedGoesOn(segment[..j]);
    StripKeepsOut(segment[..j], '=');
    StrippedIsTrimmed(segment[..j]);
    StrippedIsTrimmed(StripQuotes(StripBlanks(segment[j + 1..])));
    AddedLikeParsed(name, Bare(segment[j + 1..]));
  }

  lemma AddedLikeParsed(name: string, value: string)
    requires '=' !in name && GoesOn(name) && Trimmed(name) && Trimmed(value)
    ensures LikeParsed(Added(name, value))
  {
    var colon := IndexOf(name, ':');
    IndexOfFirst(name, ':');
    if colon >= 0 {
      FrontGoesOn(name, colon);
      StrippedIsTrimmed(name[colon + 1..] + (": " + value));
    }
  }

  lemma OneOrNone(segment: string)
    requires GoesOn(segment)
    ensures AllLikeParsed(ParseOne(segment))
  {
    if ParseOne(segment) != [] {
      OneLikeParsed(segment);
      assert ParseOne(segment)[1..] == [];
    }
  }

  lemma {:induction false} LikeParsedAppend(a: seq<Header>, b: seq<Header>)
    requires AllLikeParsed(a) && AllLikeParsed(b)
    ensures AllLikeParsed(a + b)
  {
    if a == [] {
      assert a + b == b;
    } else {
      assert (a + b)[1..] == a[1..] + b;
      LikeParsedAppend(a[1..], b);
    }
  }

  lemma ParsedStep(s: string, n: nat, rest: seq<Header>)
    requires n == SegmentEnd(s) < |s| && rest == ParseAll(s[n + 1..])
    ensures ParseAll(s) == ParseOne(s[..n]) + rest && GoesOn(s[..n])
  {
    FrontGoesOn(s, n);
  }

  lemma {:induction false} ParsedLikeParsed(s: string)
    ensures AllLikeParsed(ParseAll(s))
    decreases |s|
  {
    var n := SegmentEnd(s);
    if n < |s| {
      var rest := ParseAll(s[n + 1..]);
      ParsedStep(s, n, rest);
      OneOrNone(s[..n]);
      ParsedLikeParsed(s[n + 1..]);
      LikeParsedAppend(ParseOne(s[..n]), rest);
    }
  }

  lemma {:induction false} WithoutLikeParsed(l: seq<Header>, name: string)
    requires AllLikeParsed(l)
    ensures AllLikeParsed(Without(l, name))
  {
    if l != [] {
      var rest := Without(l[1..], name);
      WithoutLikeParsed(l[1..], name);
      assert ([l[0]] + rest)[1..] == rest && [] + rest == rest;
    }
  }

  // ---- counting equals signs ----

  function Signs(s: string): nat {
    if s == "" then 0 else (if s[0] == '=' then 1 else 0) + Signs(s[1..])
  }

  /** One for each parameter, and those inside values. */
  function Weight(l: seq<Header>): nat {
    if l == [] then 0 else 1 + Signs(l[0].value) + Weight(l[1..])
  }

  lemma {:induction false} SignsAdd(a: string, b: string)
    ensures Signs(a + b) == Signs(a) + Signs(b)
  {
    if a == "" {
      assert a + b == b;
    } else {
      assert (a + b)[1..] == a[1..] + b;
      SignsAdd(a[1..], b);
    }
  }

  lemma {:induction false} NoSigns(s: string)
    requires '=' !in s
    ensures Signs(s) == 0
  {
    if s != "" {
      NoSigns(s[1..]);
    }
  }

  lemma SignsSplit(s: string, k: nat)
    requires k <= |s|
    ensures Signs(s) == Signs(s[..k]) + Signs(s[k..])
  {
    assert s == s[..k] + s[k..];
    SignsAdd(s[..k], s[k..]);
  }

  lemma StrippedSigns(s: string)
    ensures Signs(StripBlanks(s)) <= Signs(s)
  {
    StripLeftIsBack(s);
    StripRightIsFront(StripLeft(s));
    SignsSplit(s, |s| - |StripLeft(s)|);
    SignsSplit(StripLeft(s), |StripBlanks(s)|);
  }

  lemma UnquotedSigns(s: string)
    ensures Signs(StripQuotes(s)) <= Signs(s)
  {
    if s != "" {
      SignsSplit(s, 1);
      var t := if s[0] == '"' then s[1..] else s;
      if t != "" {
        SignsSplit(t, |t| - 1);
      }
    }
  }

  lemma BareSigns(s: string)
    ensures Signs(Bare(s)) <= Signs(s)
  {
    StrippedSigns(s);
    UnquotedSigns(StripBlanks(s));
    StrippedSigns(StripQuotes(StripBlanks(s)));
  }

  lemma AddedSigns(name: string, value: string)
    requires '=' !in name
    ensures Signs(Added(name, value).value) <= Signs(value)
  {
    var colon := IndexOf(name, ':');
    if colon >= 0 {
      var back, sep := name[colon + 1..], ": ";
      NoSigns(back);
      NoSigns(sep);
      SignsAdd(sep, value);
      SignsAdd(back, sep + value);
      StrippedSigns(back + (sep + value));
    }
  }

  /** A parameter has at least one equals sign more than its value; a text without parameter may have some too. */
  lemma OneWeighs(segment: string)
    ensures Weight(ParseOne(segment)) <= Signs(segment)
    ensures ParseOne(segment) == [] && '=' in segment ==> Weight(ParseOne(segment)) < Signs(segment)
  {
    var j := IndexOf(segment, '=');
    IndexOfFirst(segment, '=');
    if j >= 0 {
      var x := segment[j + 1..];
      SignsSplit(segment, j);
      assert segment[j..][1..] == x && Signs(segment) >= 1 + Signs(x);
      if ParseOne(segment) != [] {
        var h := ParseOne(segment)[0];
        assert ParseOne(segment)[1..] == [] && Weight(ParseOne(segment)) == 1 + Signs(h.value) + Weight([]);
        BareSigns(x);
        StripKeepsOut(segment[..j], '=');
        AddedSigns(StripBlanks(segment[..j]), Bare(x));
      }
    }
  }

  lemma {:induction false} WeightAdd(a: seq<Header>, b: seq<Header>)
    ensures Weight(a + b) == Weight(a) + Weight(b)
  {
    if a == [] {
      assert a + b == b;
    } else {
      assert (a + b)[1..] == a[1..] + b;
      WeightAdd(a[1..], b);
    }
  }

  lemma {:induction false} ParsedWeighs(s: string)
    ensures Weight(ParseAll(s)) <= Signs(s)
    decreases |s|
  {
    var n := SegmentEnd(s);
    if n < |s| {
      ParsedWeighs(s[n + 1..]);
      OneWeighs(s[..n]);
      WeightAdd(ParseOne(s[..n]), ParseAll(s[n + 1..]));
      SignsSplit(s, n);
      assert s[n..][1..] == s[n + 1..];
    }
  }

  lemma PrintedOneWeighs(h: Header)
    requires '=' !in h.name
    ensures Signs(PrintOne(h)) == 1 + Signs(h.value)
  {
    var q, e: string := "\"", "=";
    NoSigns(h.name);
    NoSigns(q);
    assert q[1..] == "" && e[1..] == "" && Signs(e) == 1;
    SignsAdd(h.name, e + PrintValue(h.value));
    SignsAdd(e, PrintValue(h.value));
    SignsAdd(h.value, q);
    SignsAdd(q, h.value + q);
  }

  lemma {:induction false} PrintedWeighs(l: seq<Header>)
    requires AllLikeParsed(l)
    ensures Signs(Print(l)) == Weight(l)
  {
    if l != [] {
      PrintedOneWeighs(l[0]);
      PrintedWeighs(l[1..]);
      if |l| > 1 {
        var sep := "; ";
        NoSigns(sep);
        SignsAdd(sep, Print(l[1..]));
        SignsAdd(PrintOne(l[0]), sep + Print(l[1..]));
      } else {
        assert l[1..] == [] && Weight([]) == 0;
      }
    }
  }

  lemma {:induction false} RemovalWeighs(l: seq<Header>, name: string)
    ensures Weight(Without(l, name)) <= Weight(l)
    ensures Weight(Without(l, name)) == Weight(l) ==> Without(l, name) == l
  {
    if l != [] {
      var rest := Without(l[1..], name);
      RemovalWeighs(l[1..], name);
      if EqNoCase(l[0].name, name) {
        assert [] + rest == rest;
      } else {
        assert ([l[0]] + rest)[1..] == rest && l == [l[0]] + l[1..];
      }
    }
  }

  // ---- which parameters survive ----

  /** A value that is printed so that the parser finds it: in quotes, or without one at either end. */
  predicate GoodValue(v: string) {
    Trimmed(v) && (NeedsQuotes(v) || v == "" || (v[0] != '"' && v[|v| - 1] != '"'))
  }

  predicate GoodName(s: string) {
    s != "" && Trimmed(s) && '=' !in s && ':' !in s
  }

  /** Printed, the parameter has no semicolon outside quotes, and leaves no quote open. */
  predicate Closed(h: Header) {
    SegmentEnd(PrintOne(h) + ";") == |PrintOne(h)|
  }

  predicate Survives(h: Header) {
    GoodName(h.name) && GoodValue(h.value) && Closed(h)
  }

  predicate AllSurvive(l: seq<Header>) {
    l != [] ==> Survives(l[0]) && AllSurvive(l[1..])
  }

  lemma ValueComesBackIff(v: string)
    ensures Bare(PrintValue(v)) == v <==> GoodValue(v)
  {
    var p := PrintValue(v);
    StrippedIsTrimmed(p);
    StrippedIsTrimmed(StripQuotes(StripBlanks(p)));
    if NeedsQuotes(v) {
      assert p[0] == '"' && p[|p| - 1] == '"' && p[1..] == v + "\"" && (v + "\"")[..|v|] == v;
      StrippedIsTrimmed(v);
    } else {
      assert forall i :: 0 <= i < |v| ==> !IsSpace(v[i]);
      StrippedIsTrimmed(v);
    }
  }

  // ---- a parameter that comes back ends where it was printed to end ----

  lemma {:induction false} StripRightKeeps(s: string, i: nat)
    requires i < |s| && !IsSpace(s[i])
    ensures i < |StripRight(s)|
  {
    if IsSpace(s[|s| - 1]) {
      StripRightKeeps(s[..|s| - 1], i);
    }
  }

  lemma StripsKeep(s: string, c: char)
    requires c in s && !IsSpace(c)
    ensures c in StripBlanks(s)
  {
    StripLeftKeeps(s, c);
    var t := StripLeft(s);
    var i :| 0 <= i < |t| && t[i] == c;
    StripRightKeeps(t, i);
    StripRightIsFront(t);
    assert StripBlanks(s)[i] == t[i];
  }

  lemma {:induction false} StripLeftKeeps(s: string, c: char)
    requires c in s && !IsSpace(c)
    ensures c in StripLeft(s)
  {
    if IsSpace(s[0]) {
      StripLeftKeeps(s[1..], c);
    }
  }

  /** Taking blanks and quotes off the ends takes no semicolon off. */
  lemma BareKeeps(s: string)
    requires ';' in s
    ensures ';' in Bare(s)
  {
    StripsKeep(s, ';');
    StripsKeep(StripQuotes(StripBlanks(s)), ';');
  }

  lemma BareIsShorter(s: string)
    ensures |Bare(s)| <= |s|
    ensures s != "" && s[0] == '"' ==> |Bare(s)| < |s|
  {
    StrippedIsTrimmed(s);
    StrippedIsTrimmed(StripQuotes(StripBlanks(s)));
    if s != "" && s[0] == '"' {
      assert StripLeft(s) == s;
      StripRightKeeps(s, 0);
      StripRightIsFront(s);
    }
  }

  /** What goes on behind a quoted value leaves more than the value. */
  lemma BareGoesOn(v: string, more: string)
    requires v != "" && Trimmed(v)
    ensures |Bare("\"" + (v + ("\";" + more)))| > |v|
  {
    var s := "\"" + (v + ("\";" + more));
    assert StripLeft(s) == s && s[|v| + 2] == ';';
    StripRightKeeps(s, |v| + 2);
    StripRightIsFront(s);
    var m := |StripBlanks(s)|;
    var t := StripQuotes(s[..m]);
    assert s[..m][0] == '"' && s[..m][|v| + 2] == ';';
    assert t == s[..m][1..] || t == s[..m][1..][..m - 2];
    assert |t| >= |v| + 2 && t[0] == s[1] && s[1] == v[0] && t[|v| + 1] == ';';
    StripRightKeeps(t, |v| + 1);
  }

  /** If a front of a printed value and what follows it, up to a semicolon, is read as the value, then it is
      the printed value. */
  lemma ValueEnds(v: string, more: string, k: nat)
    requires Trimmed(v) && k < |PrintValue(v) + (";" + more)| && (PrintValue(v) + (";" + more))[k] == ';'
    requires Bare((PrintValue(v) + (";" + more))[..k]) == v
    ensures k == |PrintValue(v)|
  {
    var p := PrintValue(v);
    var w := p + (";" + more);
    var x := w[..k];
    BareIsShorter(x);
    if NeedsQuotes(v) {
      if k > |p| {
        assert x == "\"" + (v + ("\";" + more[..k - |p| - 1]));
        BareGoesOn(v, more[..k - |p| - 1]);
      }
    } else if k > |p| {
      assert x[|p|] == ';';
      BareKeeps(x);
    }
  }

  /** A name and an equals sign never end a parameter. */
  lemma NameGoesOn(name: string, rest: string)
    requires GoesOn(name)
    ensures SegmentEnd(name + ("=" + rest)) >= |name| + 1
  {
    EndIsLocal(name, "=" + rest);
    assert (name + ("=" + rest))[|name|] == '=';
  }

  lemma BlankGoesOn(blank: string, s: string)
    requires blank == "" || blank == " "
    ensures SegmentEnd(blank + s) == |blank| + SegmentEnd(s)
  {
    ScanShift(blank, s, 0);
    assert ScanEnd(blank + s, 0) == ScanEnd(blank + s, |blank|);
  }

  lemma OneIsParsed(segment: string, front: string, x: string, name: string)
    requires IndexOf(segment, '=') == |front| && segment[..|front|] == front && segment[|front| + 1..] == x
    requires StripBlanks(front) == name && ':' !in name
    ensures ParseOne(segment) == if name == "" then [] else [Header(name, Bare(x))]
  {
    IndexOfFirst(name, ':');
  }

  lemma StripName(blank: string, name: string)
    requires (blank == "" || blank == " ") && (name == "" || !IsSpace(name[0]))
    ensures StripBlanks(blank + name) == StripRight(name) && (name != "" ==> StripRight(name) != "")
  {
    if blank == "" {
      assert blank + name == name;
    } else {
      assert (blank + name)[1..] == name;
    }
    assert StripLeft(blank + name) == name;
    if name != "" {
      StripRightKeeps(name, 0);
    }
  }

  lemma SignInside(segment: string, blank: string, name: string, x: string)
    requires segment == blank + (name + ("=" + x)) && '=' !in blank && '=' !in name
    ensures var n := |blank + name|; IndexOf(segment, '=') == n && segment[..n] == blank + name && segment[n + 1..] == x
  {
    assert segment == (blank + name) + ['='] + x;
    IndexOfPrefix(blank + name, '=', x);
  }

  /** How a text that begins with a name and an equals sign is parsed. */
  lemma NamedIsParsed(blank: string, name: string, x: string)
    requires (blank == "" || blank == " ") && '=' !in name && ':' !in name && (name == "" || !IsSpace(name[0]))
    ensures ParseOne(blank + (name + ("=" + x))) == if name == "" then [] else [Header(StripRight(name), Bare(x))]
  {
    var segment, front := blank + (name + ("=" + x)), blank + name;
    SignInside(segment, blank, name, x);
    StripName(blank, name);
    StripRightIsFront(name);
    OneIsParsed(segment, front, x, StripRight(name));
  }

  // ---- lists ----

  /** The printed list, with the closing semicolon, by its first parameter. */
  function Behind(l: seq<Header>): string
    requires l != []
  {
    if |l| == 1 then "" else " " + (Print(l[1..]) + ";")
  }

  lemma Regroup(a: string, b: string, c: string)
    ensures (a + b) + c == a + (b + c)
  {
  }

  lemma Separated(p: string, r: string)
    ensures (p + ("; " + r)) + ";" == p + (";" + (" " + (r + ";")))
  {
    Regroup(p, "; " + r, ";");
    Regroup("; ", r, ";");
    Regroup(";", " ", r + ";");
    assert ";" + " " == "; ";
  }

  lemma PrintedHead(l: seq<Header>)
    requires l != []
    ensures Print(l) + ";" == PrintOne(l[0]) + (";" + Behind(l))
  {
    if |l| == 1 {
      assert ";" + "" == ";";
    } else {
      Separated(PrintOne(l[0]), Print(l[1..]));
    }
  }

  lemma PrintedName(h: Header, rest: string)
    ensures PrintOne(h) + rest == h.name + ("=" + (PrintValue(h.value) + rest))
  {
    Regroup(h.name, "=" + PrintValue(h.value), rest);
    Regroup("=", PrintValue(h.value), rest);
  }

  /** A closed parameter ends at its semicolon, whatever follows. */
  lemma ClosedEnds(h: Header, blank: string, rest: string)
    requires blank == "" || blank == " "
    ensures Closed(h) <==> SegmentEnd(blank + (PrintOne(h) + (";" + rest))) == |blank + PrintOne(h)|
  {
    var p := PrintOne(h);
    BlankGoesOn(blank, p + (";" + rest));
    assert p + (";" + rest) == p + ";" + rest;
    EndIsLocal(p + ";", rest);
  }

  /** A parameter that survives is read, and then the rest. */
  lemma SurvivorIsRead(h: Header, blank: string, rest: string)
    requires Survives(h) && (blank == "" || blank == " ")
    ensures ParseAll(blank + (PrintOne(h) + (";" + rest))) == [h] + ParseAll(rest)
  {
    ClosedEnds(h, blank, rest);
    assert blank + (PrintOne(h) + (";" + rest)) == blank + PrintOne(h) + (";" + rest);
    SegmentIsRead(blank + PrintOne(h), rest);
    assert blank + PrintOne(h) == blank + (h.name + ("=" + PrintValue(h.value)));
    NamedIsParsed(blank, h.name, PrintValue(h.value));
    ValueComesBackIff(h.value);
  }

  lemma {:induction false} SurvivorsComeBack(l: seq<Header>, blank: string)
    requires l != [] && AllSurvive(l) && (blank == "" || blank == " ")
    ensures ParseAll(blank + (Print(l) + ";")) == l
  {
    PrintedHead(l);
    SurvivorIsRead(l[0], blank, Behind(l));
    if |l| > 1 {
      SurvivorsComeBack(l[1..], " ");
      assert l == [l[0]] + l[1..];
    } else {
      assert ParseAll("") == [] && l == [l[0]] + [];
    }
  }

  /** A text that begins with a name and an equals sign. */
  predicate Begins(t: string, blank: string, name: string, w: string) {
    (blank == "" || blank == " ") && t == blank + (name + ("=" + w))
  }

  lemma FrontOf(t: string, blank: string, name: string, w: string, k: nat)
    requires Begins(t, blank, name, w) && k <= |w|
    ensures var n := |blank| + |name| + 1 + k;
            n <= |t| && t[..n] == blank + (name + ("=" + w[..k])) && t[..n][|blank| + |name|] == '=' && (k < |w| ==> n < |t| && t[n] == w[k])
  {
  }

  /** Where the first parameter of such a text ends, and as what it is read. */
  lemma FirstIsRead(t: string, blank: string, name: string, w: string) returns (k: nat)
    requires Begins(t, blank, name, w) && NameLike(name)
    ensures SegmentEnd(t) == |blank| + |name| + 1 + k && k <= |w| && (k < |w| ==> w[k] == ';')
    ensures ReadAs(t[..|blank| + |name| + 1 + k], name, w[..k])
  {
    k := FirstEnds(t, blank, name, w);
    ReadUpTo(t, blank, name, w, k);
  }

  /** A text with an equals sign that is read as a parameter of that name, if there is a name, and of that value. */
  predicate ReadAs(segment: string, name: string, x: string) {
    '=' in segment && ParseOne(segment) == if name == "" then [] else [Header(StripRight(name), Bare(x))]
  }

  lemma ReadUpTo(t: string, blank: string, name: string, w: string, k: nat)
    requires Begins(t, blank, name, w) && k <= |w| && '=' !in name && ':' !in name && (name == "" || !IsSpace(name[0]))
    ensures |blank| + |name| + 1 + k <= |t| && ReadAs(t[..|blank| + |name| + 1 + k], name, w[..k])
    ensures k < |w| ==> t[|blank| + |name| + 1 + k] == w[k]
  {
    FrontOf(t, blank, name, w, k);
    NamedIsParsed(blank, name, w[..k]);
  }

  lemma FirstEnds(t: string, blank: string, name: string, w: string) returns (k: nat)
    requires Begins(t, blank, name, w) && NameLike(name)
    ensures SegmentEnd(t) == |blank| + |name| + 1 + k && k <= |w|
    ensures SegmentEnd(t) < |t| ==> t[SegmentEnd(t)] == ';'
  {
    NameGoesOn(name, w);
    BlankGoesOn(blank, name + ("=" + w));
    k := SegmentEnd(t) - (|blank| + |name| + 1);
  }

  /** A text at whose front an equals sign is passed over has more of them than are found. */
  lemma NothingRead(t: string, n: nat)
    requires n == SegmentEnd(t) && ParseOne(t[..n]) == [] && '=' in t[..n]
    ensures Weight(ParseAll(t)) < Signs(t)
  {
    OneWeighs(t[..n]);
    SignsSplit(t, n);
    if n < |t| {
      PassedOver(t, n);
    }
  }

  lemma PassedOver(t: string, n: nat)
    requires n == SegmentEnd(t) < |t| && ParseOne(t[..n]) == []
    ensures Weight(ParseAll(t)) <= Signs(t[n..])
  {
    SignsSplit(t[n..], 1);
    assert t[n..][1..] == t[n + 1..];
    ParsedWeighs(t[n + 1..]);
    assert [] + ParseAll(t[n + 1..]) == ParseAll(t[n + 1..]);
  }

  lemma NamelessIsPassed(t: string, blank: string, w: string)
    requires Begins(t, blank, "", w)
    ensures Weight(ParseAll(t)) < Signs(t)
  {
    var k := FirstIsRead(t, blank, "", w);
    NothingRead(t, |blank| + 1 + k);
  }

  /** A list in which a parameter without a name is printed first does not come back: an equals sign is lost. */
  lemma NamelessIsLost(l: seq<Header>, blank: string)
    requires l != [] && AllLikeParsed(l) && l[0].name == "" && (blank == "" || blank == " ")
    ensures ParseAll(blank + (Print(l) + ";")) != l
  {
    PrintedHead(l);
    PrintedName(l[0], ";" + Behind(l));
    NamelessIsPassed(blank + (Print(l) + ";"), blank, PrintValue(l[0].value) + (";" + Behind(l)));
    SignsAround(blank, Print(l));
    PrintedWeighs(l);
  }

  lemma SignsAround(blank: string, s: string)
    requires blank == "" || blank == " "
    ensures Signs(blank + (s + ";")) == Signs(s)
  {
    var semi: string := ";";
    NoSigns(blank);
    NoSigns(semi);
    SignsAdd(s, semi);
    SignsAdd(blank, s + semi);
  }

  /** The text ends its first parameter with a semicolon, and reads it as `h` if it reads it at all. */
  predicate FirstIs(t: string, n: nat, h: Header) {
    n == SegmentEnd(t) < |t| && (ParseOne(t[..n]) != [] ==> ParseOne(t[..n])[0] == h)
  }

  lemma HeadIsFirst(t: string, l: seq<Header>)
    requires ParseAll(t) == l && l != []
    ensures FirstIs(t, SegmentEnd(t), l[0])
  {
  }

  lemma ReadIsFirst(t: string, n: nat, h: Header, x: string)
    requires FirstIs(t, n, h) && h.name != "" && ReadAs(t[..n], h.name, x)
    ensures Bare(x) == h.value && GoodEnd(h.name)
  {
    StripRightIsFront(h.name);
  }

  predicate GoodEnd(name: string) {
    name != "" && !IsSpace(name[|name| - 1])
  }

  /** If a list comes back, its first parameter is read off exactly its own text. */
  lemma FirstIsExact(l: seq<Header>, blank: string)
    requires l != [] && AllLikeParsed(l) && l[0].name != "" && (blank == "" || blank == " ")
    requires ParseAll(blank + (Print(l) + ";")) == l
    ensures Survives(l[0])
  {
    HeadIsFirst(blank + (Print(l) + ";"), l);
    PrintedHead(l);
    PrintedName(l[0], ";" + Behind(l));
    NamedIsExact(blank + (Print(l) + ";"), l[0], blank, PrintValue(l[0].value) + (";" + Behind(l)), Behind(l));
  }

  lemma NamedIsExact(t: string, h: Header, blank: string, w: string, rest: string)
    requires LikeParsed(h) && h.name != "" && Begins(t, blank, h.name, w) && w == PrintValue(h.value) + (";" + rest)
    requires FirstIs(t, SegmentEnd(t), h)
    ensures Survives(h)
  {
    var k := FirstRead(t, h, blank, w);
    ReadSurvives(t, h, blank, w, rest, k);
  }

  lemma FirstRead(t: string, h: Header, blank: string, w: string) returns (k: nat)
    requires NameLike(h.name) && h.name != "" && Begins(t, blank, h.name, w) && FirstIs(t, SegmentEnd(t), h)
    ensures GoodEnd(h.name) && SegmentEnd(t) == |blank| + |h.name| + 1 + k && k < |w| && w[k] == ';' && Bare(w[..k]) == h.value
  {
    k := FirstIsRead(t, blank, h.name, w);
    ReadInside(t, blank, h.name, w, k);
    ReadIsFirst(t, |blank| + |h.name| + 1 + k, h, w[..k]);
  }

  lemma ReadSurvives(t: string, h: Header, blank: string, w: string, rest: string, k: nat)
    requires LikeParsed(h) && GoodEnd(h.name) && Begins(t, blank, h.name, w) && w == PrintValue(h.value) + (";" + rest)
    requires SegmentEnd(t) == |blank| + |h.name| + 1 + k && k < |w| && w[k] == ';' && Bare(w[..k]) == h.value
    ensures Survives(h)
  {
    ReadValue(h, rest, w, k);
    ReadClosed(t, h, blank, rest, w);
  }

  lemma ReadInside(t: string, blank: string, name: string, w: string, k: nat)
    requires Begins(t, blank, name, w) && |blank| + |name| + 1 + k < |t|
    ensures k < |w|
  {
  }

  lemma ReadValue(h: Header, rest: string, w: string, k: nat)
    requires Trimmed(h.value) && w == PrintValue(h.value) + (";" + rest) && k < |w| && w[k] == ';' && Bare(w[..k]) == h.value
    ensures GoodValue(h.value) && k == |PrintValue(h.value)|
  {
    ValueEnds(h.value, rest, k);
    assert w[..k] == PrintValue(h.value);
    ValueComesBackIff(h.value);
  }

  lemma ReadClosed(t: string, h: Header, blank: string, rest: string, w: string)
    requires Begins(t, blank, h.name, w) && w == PrintValue(h.value) + (";" + rest) && SegmentEnd(t) == |blank| + |PrintOne(h)|
    ensures Closed(h)
  {
    PrintedName(h, ";" + rest);
    ClosedEnds(h, blank, rest);
  }

  lemma {:induction false} SurvivorsOnly(l: seq<Header>, blank: string)
    requires l != [] && AllLikeParsed(l) && (blank == "" || blank == " ")
    requires ParseAll(blank + (Print(l) + ";")) == l
    ensures AllSurvive(l)
    decreases |l|
  {
    if l[0].name == "" {
      NamelessIsLost(l, blank);
    } else {
      FirstIsExact(l, blank);
      PrintedHead(l);
      SurvivorIsRead(l[0], blank, Behind(l));
      assert ([l[0]] + ParseAll(Behind(l)))[1..] == ParseAll(Behind(l));
      if |l| > 1 {
        SurvivorsOnly(l[1..], " ");
      }
    }
  }

  /** Main result: a parameter list comes back as it was printed exactly when every name is a trimmed token
      without colon and equals sign, every value is trimmed and, unless it has to be quoted, has no quote at
      either end, and no printed parameter has a semicolon outside quotes or leaves a quote open. */
  lemma ParamsRoundTripIff(l: seq<Header>)
    ensures Parse(Print(l)) == l <==> AllSurvive(l)
  {
    if l == [] {
      var s: string := ";";
      assert Print(l) + ";" == s && SegmentEnd(s) == 0 && s[..0] == "" && s[1..] == "";
      assert ParseAll("") == [] && ParseOne("") == [];
    } else {
      assert "" + (Print(l) + ";") == Print(l) + ";";
      if AllSurvive(l) {
        SurvivorsComeBack(l, "");
      }
      if Parse(Print(l)) == l {
        ParsedLikeParsed(Print(l) + ";");
        SurvivorsOnly(l, "");
      }
    }
  }

  // ---- lists that plainly survive ----

  lemma {:induction false} PlainScan(s: string, i: nat, j: nat)
    requires i <= j <= |s| && forall k :: i <= k < j ==> s[k] != ';' && s[k] != '"'
    ensures ScanEnd(s, i) == ScanEnd(s, j)
    decreases j - i
  {
    if i < j {
      PlainScan(s, i + 1, j);
    }
  }

  lemma {:induction false} QuotedScan(s: string, i: nat, j: nat)
    requires i <= j < |s| && s[j] == '"' && forall k :: i <= k < j ==> s[k] != '"' && s[k] != '\\'
    ensures QuotedEnd(s, i) == j + 1
    decreases j - i
  {
    if i < j {
      QuotedScan(s, i + 1, j);
    }
  }

  /** A name without special characters, and a trimmed value without quotes and backslashes. */
  predicate Plain(h: Header) {
    && GoodName(h.name) && ';' !in h.name && '"' !in h.name
    && Trimmed(h.value) && '"' !in h.value && '\\' !in h.value
  }

  lemma PlainSurvives(h: Header)
    requires Plain(h)
    ensures Survives(h)
  {
    var s := PrintOne(h) + ";";
    var n := |h.name| + 1;
    assert forall k :: 0 <= k < n ==> s[k] != ';' && s[k] != '"';
    PlainScan(s, 0, n);
    if NeedsQuotes(h.value) {
      assert s[n] == '"' && s[n + 1 + |h.value|] == '"';
      assert forall k :: n < k < n + 1 + |h.value| ==> s[k] == h.value[k - n - 1];
      QuotedScan(s, n + 1, n + 1 + |h.value|);
    } else {
      assert forall k :: n <= k < n + |h.value| ==> s[k] == h.value[k - n] && !IsSpecial(s[k]);
      PlainScan(s, n, n + |h.value|);
    }
  }

  /** Lists of plain parameters come back, whatever blanks, semicolons and equals signs their values contain. */
  lemma ParamsRoundTrip(l: seq<Header>)
    requires forall i :: 0 <= i < |l| ==> Plain(l[i])
    ensures Parse(Print(l)) == l
  {
    PlainsSurvive(l);
    ParamsRoundTripIff(l);
  }

  lemma {:induction false} PlainsSurvive(l: seq<Header>)
    requires forall i :: 0 <= i < |l| ==> Plain(l[i])
    ensures AllSurvive(l)
  {
    if l != [] {
      PlainSurvives(l[0]);
      PlainsSurvive(l[1..]);
    }
  }

  // ---- texts that are printed as they were parsed ----

  predicate CanonicalValue(x: string) {
    if NeedsQuotes(x) then
      && |x| >= 2 && x[0] == '"' && x[|x| - 1] == '"'
      && NeedsQuotes(x[1..|x| - 1]) && Trimmed(x[1..|x| - 1])
    else x == "" || (x[0] != '"' && x[|x| - 1] != '"')
  }

  /** One parameter in the printer's spelling, other than a boundary. */
  predicate CanonicalOne(s: string) {
    var j := IndexOf(s, '=');
    && j > 0 && Trimmed(s[..j]) && ':' !in s[..j] && !EqNoCase(s[..j], "boundary")
    && CanonicalValue(s[j + 1..])
  }

  /** Parameters in the printer's spelling, with a semicolon and one blank between them and no quote left open. */
  predicate Canonical(q: string)
    decreases |q|
  {
    var n := SegmentEnd(q + ";");
    n <= |q| && CanonicalOne(q[..n]) && (n == |q| || (Spaced(q, n) && Canonical(q[n + 2..])))
  }

  predicate Spaced(q: string, n: nat) {
    n + 1 < |q| && q[n] == ';' && q[n + 1] == ' '
  }

  lemma CanonicalValueIff(x: string)
    ensures CanonicalValue(x) <==> x == PrintValue(Bare(x))
    ensures CanonicalValue(x) ==> GoodValue(Bare(x))
  {
    if CanonicalValue(x) {
      CanonicalIsPrinted(x);
    }
    if x == PrintValue(Bare(x)) {
      ValueComesBackIff(Bare(x));
      PrintedIsCanonical(Bare(x));
    }
  }

  lemma CanonicalIsPrinted(x: string)
    requires CanonicalValue(x)
    ensures x == PrintValue(Bare(x)) && GoodValue(Bare(x))
  {
    var u := if NeedsQuotes(x) then x[1..|x| - 1] else x;
    assert NeedsQuotes(x) ==> x == "\"" + (u + "\"");
    assert !NeedsQuotes(x) ==> forall i :: 0 <= i < |x| ==> !IsSpace(x[i]);
    ValueComesBackIff(u);
  }

  lemma PrintedIsCanonical(v: string)
    requires GoodValue(v)
    ensures CanonicalValue(PrintValue(v))
  {
    var x := PrintValue(v);
    if NeedsQuotes(v) {
      var i :| 0 <= i < |v| && (IsSpace(v[i]) || IsSpecial(v[i]));
      assert x[i + 1] == v[i] && x[1..|x| - 1] == v;
    }
  }

  /** One canonical parameter is read off the front, and is printed as it was. */
  lemma CanonicalOneIsRead(s: string, blank: string)
    requires CanonicalOne(s) && (blank == "" || blank == " ")
    ensures |ParseOne(blank + s)| == 1 && PrintOne(ParseOne(blank + s)[0]) == s
    ensures !EqNoCase(ParseOne(blank + s)[0].name, "boundary")
  {
    var j := IndexOf(s, '=');
    var name, x := s[..j], s[j + 1..];
    IndexOfFirst(s, '=');
    assert s == name + ("=" + x);
    NamedIsParsed(blank, name, x);
    CanonicalValueIff(x);
    assert StripRight(name) == name;
  }

  /** A canonical text: its first parameter, and what is left when that is taken off and a semicolon put at the end. */
  function Left(q: string, n: nat): string
    requires n <= |q| && (n < |q| ==> n + 2 <= |q|)
  {
    if n == |q| then "" else " " + (q[n + 2..] + ";")
  }

  lemma CanonicalHead(q: string, blank: string, n: nat)
    requires n == SegmentEnd(q + ";") <= |q| && (n < |q| ==> Spaced(q, n)) && (blank == "" || blank == " ")
    ensures blank + (q + ";") == blank + q[..n] + (";" + Left(q, n)) && SegmentEnd(blank + q[..n] + (";" + Left(q, n))) == |blank + q[..n]|
  {
    CanonicalCut(q, n);
    Regroup(blank, q[..n], ";" + Left(q, n));
    BlankGoesOn(blank, q + ";");
  }

  lemma CanonicalCut(q: string, n: nat)
    requires n == SegmentEnd(q + ";") <= |q| && (n < |q| ==> Spaced(q, n))
    ensures q + ";" == q[..n] + (";" + Left(q, n))
  {
    if n < |q| {
      CutAt(q, n);
      Separated(q[..n], q[n + 2..]);
    } else {
      assert ";" + "" == ";" && q[..n] == q;
    }
  }

  lemma CutAt(q: string, n: nat)
    requires Spaced(q, n)
    ensures q == q[..n] + ("; " + q[n + 2..])
  {
  }

  lemma {:induction false} CanonicalIsReprinted(q: string, blank: string)
    requires Canonical(q) && (blank == "" || blank == " ")
    ensures var l := ParseAll(blank + (q + ";")); l != [] && Print(l) == q && NoneCalled(l, "boundary")
    decreases |q|
  {
    var n := SegmentEnd(q + ";");
    CanonicalUnfold(q, n);
    var h := HeadIsReprinted(q, blank, n);
    Prepend(h, ParseAll(Left(q, n)));
    if n < |q| {
      CanonicalIsReprinted(q[n + 2..], " ");
      CutAt(q, n);
    } else {
      assert ParseAll("") == [] && q[..n] == q;
    }
  }

  lemma HeadIsReprinted(q: string, blank: string, n: nat) returns (h: Header)
    requires n == SegmentEnd(q + ";") <= |q| && (n < |q| ==> Spaced(q, n)) && (blank == "" || blank == " ")
    requires CanonicalOne(q[..n])
    ensures ParseAll(blank + (q + ";")) == [h] + ParseAll(Left(q, n)) && PrintOne(h) == q[..n] && !EqNoCase(h.name, "boundary")
  {
    CanonicalHead(q, blank, n);
    SegmentIsRead(blank + q[..n], Left(q, n));
    CanonicalOneIsRead(q[..n], blank);
    h := ParseOne(blank + q[..n])[0];
    assert ParseOne(blank + q[..n]) == [h];
  }

  lemma Prepend(h: Header, l: seq<Header>)
    ensures NoneCalled([h] + l, "boundary") <==> !EqNoCase(h.name, "boundary") && NoneCalled(l, "boundary")
    ensures Print([h] + l) == if l == [] then PrintOne(h) else PrintOne(h) + ("; " + Print(l))
  {
    assert ([h] + l)[1..] == l;
  }

  /** A parameter that survives is printed canonically. */
  lemma SurvivorIsCanonical(h: Header)
    requires Survives(h) && !EqNoCase(h.name, "boundary")
    ensures CanonicalOne(PrintOne(h))
  {
    assert PrintOne(h) == h.name + ['='] + PrintValue(h.value);
    IndexOfPrefix(h.name, '=', PrintValue(h.value));
    assert PrintOne(h)[..|h.name|] == h.name && PrintOne(h)[|h.name| + 1..] == PrintValue(h.value);
    PrintedIsCanonical(h.value);
  }

  lemma {:induction false} PrintIsCanonical(l: seq<Header>)
    requires l != [] && AllSurvive(l) && NoneCalled(l, "boundary")
    ensures Canonical(Print(l))
  {
    SurvivorIsCanonical(l[0]);
    PrintedEnd(l);
    if |l| > 1 {
      PrintIsCanonical(l[1..]);
      CanonicalMore(Print(l), PrintOne(l[0]), Print(l[1..]));
    } else {
      assert Print(l)[..|PrintOne(l[0])|] == PrintOne(l[0]);
    }
  }

  lemma PrintedEnd(l: seq<Header>)
    requires l != [] && AllSurvive(l)
    ensures SegmentEnd(Print(l) + ";") == |PrintOne(l[0])|
  {
    PrintedHead(l);
    ClosedEnds(l[0], "", Behind(l));
    BlankGoesOn("", PrintOne(l[0]) + (";" + Behind(l)));
    assert "" + PrintOne(l[0]) == PrintOne(l[0]);
  }

  lemma CanonicalMore(q: string, p: string, r: string)
    requires q == p + ("; " + r) && SegmentEnd(q + ";") == |p| && CanonicalOne(p) && Canonical(r)
    ensures Canonical(q)
  {
    Apart(q, p, r);
    CanonicalFold(q, |p|);
  }

  lemma Apart(q: string, p: string, r: string)
    requires q == p + ("; " + r)
    ensures |p| + 2 <= |q| && q[..|p|] == p && q[|p| + 2..] == r && Spaced(q, |p|)
  {
  }

  lemma CanonicalFold(q: string, n: nat)
    requires n == SegmentEnd(q + ";") && Spaced(q, n) && CanonicalOne(q[..n]) && Canonical(q[n + 2..])
    ensures Canonical(q)
  {
  }

  lemma CanonicalUnfold(q: string, n: nat)
    requires Canonical(q) && n == SegmentEnd(q + ";")
    ensures n <= |q| && CanonicalOne(q[..n])
    ensures n < |q| ==> Spaced(q, n) && Canonical(q[n + 2..])
  {
  }

  /** Main result: parameters that are parsed, rid of a boundary and printed again are as they were exactly when
      they are spelled as the printer spells them and no boundary is among them. */
  lemma CanonicalIff(q: string)
    ensures Print(Without(Parse(" " + q), "boundary")) == q <==> q == "" || Canonical(q)
  {
    var parsed := Parse(" " + q);
    var l := Without(parsed, "boundary");
    assert " " + q + ";" == " " + (q + ";");
    if q == "" {
      OnlyBlank();
    } else if Canonical(q) {
      CanonicalIsReprinted(q, " ");
      NoneIsMissing(parsed, "boundary");
    }
    if Print(l) == q && q != "" {
      ReprintedIsCanonical(q);
    }
  }

  lemma OnlyBlank()
    ensures Parse(" ") == []
  {
    var s: string := " ;";
    assert " " + ";" == s && s[1..] == ";" && SegmentEnd(";") == 0 && SegmentEnd(s) == 1;
    assert s[..1] == " " && s[2..] == "" && ParseAll("") == [] && ParseOne(" ") == [];
  }

  /** What is printed as it was lost no parameter. */
  lemma ReprintedIsCanonical(q: string)
    requires q != "" && Print(Without(Parse(" " + q), "boundary")) == q
    ensures Canonical(q)
  {
    var parsed := Parse(" " + q);
    var l := Without(parsed, "boundary");
    assert " " + q + ";" == " " + (q + ";");
    ParsedLikeParsed(" " + (q + ";"));
    WithoutLikeParsed(parsed, "boundary");
    ParsedWeighs(" " + (q + ";"));
    SignsAround(" ", q);
    PrintedWeighs(l);
    RemovalWeighs(parsed, "boundary");
    WithoutOthers(parsed, "boundary", "boundary");
    SurvivorsOnly(l, " ");
    PrintIsCanonical(l);
  }
}
