/** Header parameters such as `name="a b"; type=text`: make_value_parameters and get_value_parameters. */
module ParamLists {
  import opened Wrappers
  import opened Text
  import opened Envelopes

  predicate IsSpecial(c: char) {
    c == '=' || c == ';' || c == '<' || c == '>' || c == '[' || c == ']' || c == '?' || c == '(' || c == ')'
    || c == '@' || c == ':' || c == '\\' || c == '/' || c == ','
  }

  predicate NeedsQuotes(v: string) {
    exists i :: 0 <= i < |v| && (IsSpace(v[i]) || IsSpecial(v[i]))
  }

  // ---- printing ----

  function PrintValue(v: string): string {
    if NeedsQuotes(v) then "\"" + (v + "\"") else v
  }

  function PrintOne(h: Header): string {
    h.name + ("=" + PrintValue(h.value))
  }

  /** make_value_parameters. */
  function Print(l: seq<Header>): string {
    if l == [] then "" else if |l| == 1 then PrintOne(l[0]) else PrintOne(l[0]) + ("; " + Print(l[1..]))
  }

  // ---- parsing ----

  /** http_header_quoted_string_len: where the quoted text that is open at `i` ends, behind its closing quote or
      at the end of all; a backslash takes the next character with it. */
  function QuotedEnd(s: string, i: nat): (n: nat)
    requires i <= |s|
    ensures i <= n <= |s|
    decreases |s| - i
  {
    if i == |s| then i
    else if s[i] == '"' then i + 1
    else if s[i] == '\\' && i + 1 < |s| then QuotedEnd(s, i + 2)
    else QuotedEnd(s, i + 1)
  }

  /** Where the parameter at `i` ends: at the first semicolon outside quotes. */
  function ScanEnd(s: string, i: nat): (n: nat)
    requires i <= |s|
    ensures i <= n <= |s| && (n < |s| ==> s[n] == ';')
    decreases |s| - i
  {
    if i == |s| || s[i] == ';' then i
    else ScanEnd(s, if s[i] == '"' then QuotedEnd(s, i + 1) else i + 1)
  }

  function SegmentEnd(s: string): (n: nat)
    ensures n <= |s| && (n < |s| ==> s[n] == ';')
  {
    ScanEnd(s, 0)
  }

  /** strip_quotes. */
  function StripQuotes(s: string): string {
    var t := if s != "" && s[0] == '"' then s[1..] else s;
    if s != "" && t != "" && t[|t| - 1] == '"' then t[..|t| - 1] else t
  }

  /** The value of a parameter: without blanks around it, then without a quote at either end. */
  function Bare(text: string): string {
    StripBlanks(StripQuotes(StripBlanks(text)))
  }

  /** http_header_add keeps one text, which http_header_get splits again at its first colon. */
  function Added(name: string, value: string): Header {
    var colon := IndexOf(name, ':');
    if colon < 0 then Header(name, value) else Header(name[..colon], StripBlanks(name[colon + 1..] + (": " + value)))
  }

  /** One parameter, if it has a name and an equals sign. */
  function ParseOne(segment: string): seq<Header> {
    var j := IndexOf(segment, '=');
    if j < 0 || StripBlanks(segment[..j]) == "" then []
    else [Added(StripBlanks(segment[..j]), Bare(segment[j + 1..]))]
  }

  /** The parameters of a text in which each ends with a semicolon. */
  function ParseAll(s: string): seq<Header>
    decreases |s|
  {
    var n := SegmentEnd(s);
    if n == |s| then [] else ParseOne(s[..n]) + ParseAll(s[n + 1..])
  }

  /** get_value_parameters. */
  function Parse(params: string): seq<Header> {
    ParseAll(params + ";")
  }

  /** A parameter that ends where its segment ends is parsed, and then the rest. */
  lemma SegmentIsRead(segment: string, rest: string)
    requires SegmentEnd(segment + (";" + rest)) == |segment|
    ensures ParseAll(segment + (";" + rest)) == ParseOne(segment) + ParseAll(rest)
  {
    var s := segment + (";" + rest);
    assert s[..|segment|] == segment && s[|segment| + 1..] == rest;
  }

  // ---- the loops ----

  /** The printing loop. */
  method MakeValueParameters(params: seq<Header>) returns (s: string)
    ensures s == Print(params)
  {
    s := "";
    for i := 0 to |params|
      invariant s == Print(params[..i])
    {
      assert params[..i + 1] == params[..i] + [params[i]];
      PrintMore(params[..i], params[i]);
      s := s + (if i == 0 then "" else "; ");
      s := s + (params[i].name + ("=" + PrintValue(params[i].value)));
    }
    assert params[..|params|] == params;
  }

  lemma {:induction false} PrintMore(l: seq<Header>, h: Header)
    ensures Print(l + [h]) == Print(l) + (if l == [] then "" else "; ") + PrintOne(h)
  {
    if l == [] {
      assert l + [h] == [h];
    } else {
      assert (l + [h])[1..] == l[1..] + [h];
      PrintMore(l[1..], h);
      Longer(PrintOne(l[0]), Print(l[1..]), PrintOne(h));
      assert |l| == 1 ==> Print(l[1..]) == "";
    }
  }

  lemma Longer(p: string, r: string, e: string)
    ensures p + ("; " + (r + "; " + e)) == p + ("; " + r) + "; " + e
    ensures p + ("; " + ("" + "" + e)) == p + "; " + e
  {
  }

  lemma {:induction false} QuotedShift(a: string, b: string, i: nat)
    requires i <= |b|
    ensures QuotedEnd(a + b, |a| + i) == |a| + QuotedEnd(b, i)
    decreases |b| - i
  {
    if i < |b| && b[i] != '"' {
      QuotedShift(a, b, if b[i] == '\\' && i + 1 < |b| then i + 2 else i + 1);
    }
  }

  /** Nothing in front of a text moves the end of what is in it. */
  lemma {:induction false} ScanShift(a: string, b: string, i: nat)
    requires i <= |b|
    ensures ScanEnd(a + b, |a| + i) == |a| + ScanEnd(b, i)
    decreases |b| - i
  {
    if i < |b| && b[i] != ';' {
      QuotedShift(a, b, i + 1);
      ScanShift(a, b, if b[i] == '"' then QuotedEnd(b, i + 1) else i + 1);
    }
  }

  /** Where the loop stands: the parameter that began at `k` has not ended before `i`. */
  ghost predicate Within(x: string, k: nat, i: nat) {
    k <= i <= |x| && ScanEnd(x, k) == ScanEnd(x, i)
  }

  lemma StepOver(x: string, k: nat, i: nat, i': nat)
    requires Within(x, k, i) && i < |x| && x[i] != ';' && i' == if x[i] == '"' then QuotedEnd(x, i + 1) else i + 1
    ensures Within(x, k, i') && i < i'
  {
  }

  lemma EndFrom(x: string, k: nat)
    requires k <= |x|
    ensures ScanEnd(x, k) == k + SegmentEnd(x[k..])
  {
    assert x == x[..k] + x[k..];
    ScanShift(x[..k], x[k..], 0);
  }

  lemma AtSemicolon(x: string, k: nat, i: nat)
    requires Within(x, k, i) && i < |x| && x[i] == ';'
    ensures Within(x, i + 1, i + 1) && ParseAll(x[k..]) == ParseOne(x[k..i]) + ParseAll(x[i + 1..])
  {
    EndFrom(x, k);
    var segment, rest := x[k..i], x[i + 1..];
    assert x[k..] == segment + (";" + rest);
    SegmentIsRead(segment, rest);
  }

  lemma AtEnd(x: string, k: nat)
    requires Within(x, k, |x|)
    ensures ParseAll(x[k..]) == []
  {
    EndFrom(x, k);
  }

  /** The parameters found so far, with those still to come, are all there are. */
  ghost predicate Stands(x: string, k: nat, i: nat, h: seq<Header>) {
    Within(x, k, i) && h + ParseAll(x[k..]) == ParseAll(x)
  }

  lemma Start(x: string)
    ensures Stands(x, 0, 0, [])
  {
    assert x[0..] == x && [] + ParseAll(x) == ParseAll(x);
  }

  lemma GoOn(x: string, k: nat, i: nat, i': nat, h: seq<Header>)
    requires Stands(x, k, i, h) && i < |x| && x[i] != ';' && i' == if x[i] == '"' then QuotedEnd(x, i + 1) else i + 1
    ensures Stands(x, k, i', h) && i < i'
  {
    StepOver(x, k, i, i');
  }

  lemma TakeOne(x: string, k: nat, i: nat, h: seq<Header>)
    requires Stands(x, k, i, h) && i < |x| && x[i] == ';'
    ensures Stands(x, i + 1, i + 1, h + ParseOne(x[k..i]))
  {
    AtSemicolon(x, k, i);
    Associate(h, ParseOne(x[k..i]), ParseAll(x[i + 1..]));
  }

  lemma Associate(a: seq<Header>, b: seq<Header>, c: seq<Header>)
    ensures a + b + c == a + (b + c)
  {
  }

  lemma Finished(x: string, k: nat, h: seq<Header>)
    requires Stands(x, k, |x|, h)
    ensures h == ParseAll(x)
  {
    AtEnd(x, k);
    assert h + [] == h;
  }

  /** A parameter ends here. */
  method Take(x: string, k: nat, i: nat, h: seq<Header>) returns (h': seq<Header>)
    requires Stands(x, k, i, h) && i < |x| && x[i] == ';'
    ensures Stands(x, i + 1, i + 1, h')
  {
    TakeOne(x, k, i, h);
    h' := h + ParseOne(x[k..i]);
  }

  /** One turn: a parameter ends here, or the text goes on. */
  method Turn(x: string, k: nat, i: nat, h: seq<Header>) returns (k': nat, i': nat, h': seq<Header>)
    requires Stands(x, k, i, h) && i < |x|
    ensures Stands(x, k', i', h') && i < i'
  {
    if x[i] == ';' {
      h' := Take(x, k, i, h);
      return i + 1, i + 1, h';
    }
    i' := if x[i] == '"' then QuotedEnd(x, i + 1) else i + 1;
    GoOn(x, k, i, i', h);
    return k, i', h;
  }

  /** The parsing loop: `i` runs over the text, `k` is where the parameter in hand began. */
  method GetValueParameters(params: string) returns (h: seq<Header>)
    ensures h == Parse(params)
  {
    var xparams := params + ";";
    var i, k := 0, 0;
    h := [];
    Start(xparams);
    while i < |xparams|
      invariant Stands(xparams, k, i, h)
      decreases |xparams| - i
    {
      k, i, h := Turn(xparams, k, i, h);
    }
    Finished(xparams, k, h);
  }
}
