/**
  The identifiers a queue entry goes by outside the gateway: its queue file and directory, the
  transaction id, the message id, the MM4 transaction id with the recipient in front, and the fetch URL.
 */
module Identifiers {
  import opened Wrappers
  import opened Text

  // ---- queue file names ----

  function Replace(s: string, from: char, to: char): (r: string)
    ensures |r| == |s|
  {
    if s == "" then "" else [if s[0] == from then to else s[0]] + Replace(s[1..], from, to)
  }

  /** xmake_qf: the directories inside the queue and the file name, with dashes for slashes. */
  function MakeQf(subdir: string, name: string): string {
    Replace(subdir + name, '/', '-')
  }

  datatype Place = Place(subdir: string, name: string)

  /** get_subdir: everything up to the last dash is the directory. */
  function GetSubdir(qf: string): Place {
    var i := LastIndexOf(qf, '-');
    if i < 0 then Place("", qf) else Place(Replace(qf[..i + 1], '-', '/'), qf[i + 1..])
  }

  /** The directories that mkqf can choose: none, or one or two levels, each ended by a slash. */
  predicate IsSubdir(s: string) {
    s == "" || (s[|s| - 1] == '/' && forall i :: 0 <= i < |s| ==> s[i] != '-' && s[i] != '@')
  }

  /** A file name as mkqf makes it. */
  predicate IsName(s: string) {
    s != "" && forall i :: 0 <= i < |s| ==> s[i] != '-' && s[i] != '/' && s[i] != '@'
  }

  /** The characters that directory names are made of: digits and small letters. */
  predicate IsPlain(c: char) {
    IsDigit(c) || 'a' <= c <= 'z'
  }

  /** The directory mkqf draws: none, one, or one in another. */
  datatype Draw = Top | OneIn(a: char) | TwoIn(a: char, b: char, c: char)
  {
    predicate Plain() {
      match this
      case Top => true
      case OneIn(a) => IsPlain(a)
      case TwoIn(a, b, c) => IsPlain(a) && IsPlain(b) && IsPlain(c)
    }

    function Subdir(): string {
      match this
      case Top => ""
      case OneIn(a) => [a, '/']
      case TwoIn(a, b, c) => [a, '/', b, c, '/']
    }
  }

  /** The file name mkqf makes from the time, a counter, the process and a random number. */
  function QueueName(time: nat, count: nat, pid: nat, random: nat): string {
    "qf" + Digits(time % 10000) + "." + Digits(count % 10000) + ".x" + Digits(pid % 1000) + "." + Digits(random % 100)
  }

  /** Whatever mkqf draws, the directory and the name can be told apart and found again. */
  lemma MkqfNames(d: Draw, time: nat, count: nat, pid: nat, random: nat)
    requires d.Plain()
    ensures IsSubdir(d.Subdir()) && IsName(QueueName(time, count, pid, random))
  {
    DigitsAreDigits(time % 10000);
    DigitsAreDigits(count % 10000);
    DigitsAreDigits(pid % 1000);
    DigitsAreDigits(random % 100);
    var parts := ["qf", Digits(time % 10000), ".", Digits(count % 10000), ".x", Digits(pid % 1000), ".", Digits(random % 100)];
    assert QueueName(time, count, pid, random) == parts[0] + parts[1] + parts[2] + parts[3] + parts[4] + parts[5] + parts[6] + parts[7];
    forall i | 0 <= i < |parts| ensures Unmarked(parts[i]) {
    }
  }

  predicate Unmarked(s: string) {
    forall i :: 0 <= i < |s| ==> s[i] != '-' && s[i] != '/' && s[i] != '@'
  }

  lemma {:induction false} ReplaceAt(s: string, from: char, to: char, i: nat)
    requires i < |s|
    ensures Replace(s, from, to)[i] == if s[i] == from then to else s[i]
  {
    if i > 0 {
      ReplaceAt(s[1..], from, to, i - 1);
    }
  }

  lemma {:induction false} ReplaceAppend(a: string, b: string, from: char, to: char)
    ensures Replace(a + b, from, to) == Replace(a, from, to) + Replace(b, from, to)
  {
    if a == "" {
      assert a + b == b;
    } else {
      assert (a + b)[1..] == a[1..] + b;
      ReplaceAppend(a[1..], b, from, to);
    }
  }

  lemma {:induction false} ReplaceBack(s: string, from: char, to: char)
    requires to !in s
    ensures Replace(Replace(s, from, to), to, from) == s
  {
    if s != "" {
      assert Replace(s, from, to)[1..] == Replace(s[1..], from, to);
      ReplaceBack(s[1..], from, to);
    }
  }

  lemma {:induction false} NothingToReplace(s: string, from: char, to: char)
    requires from !in s
    ensures Replace(s, from, to) == s
  {
    if s != "" {
      NothingToReplace(s[1..], from, to);
      assert s == [s[0]] + s[1..];
    }
  }

  /** The queue identifier leads back to the directory and the file. */
  lemma QfRoundTrip(subdir: string, name: string)
    requires IsSubdir(subdir) && IsName(name)
    ensures GetSubdir(MakeQf(subdir, name)) == Place(subdir, name)
    ensures '/' !in MakeQf(subdir, name)
  {
    ReplaceAppend(subdir, name, '/', '-');
    NothingToReplace(name, '/', '-');
    var qf := MakeQf(subdir, name);
    forall i | 0 <= i < |qf| ensures qf[i] != '/' {
      ReplaceAt(subdir + name, '/', '-', i);
    }
    if subdir == "" {
      assert qf == name;
    } else {
      var n := |subdir| - 1;
      var d := Replace(subdir, '/', '-');
      ReplaceAt(subdir, '/', '-', n);
      assert qf == d[..n] + ['-'] + name;
      LastIndexOfSuffix(d[..n], '-', name);
      assert qf[..n + 1] == d && qf[n + 1..] == name;
      ReplaceBack(subdir, '/', '-');
    }
  }

  // ---- transaction and message ids ----

  /** mms_maketransid. */
  function MakeTransId(qf: string, mmsc: string): string {
    mmsc + ['-'] + qf
  }

  /** mms_getqf_fromtransid: what follows the first dash, or else the first at-sign. */
  function QfFromTransId(transid: string): string {
    var i := IndexOf(transid, '-');
    var j := if i >= 0 then i else IndexOf(transid, '@');
    if j >= 0 then transid[j + 1..] else transid
  }

  /** mms_make_msgid. */
  function MakeMsgId(qf: string, mmsc: Option<string>): string {
    match mmsc
    case None => qf
    case Some(m) => qf + ['@'] + m
  }

  /** mms_getqf_from_msgid. */
  function QfFromMsgId(msgid: string): string {
    var i := IndexOf(msgid, '@');
    if i > 0 then msgid[..i] else QfFromTransId(msgid)
  }

  /** A transaction id leads back to its queue entry exactly when the name of the MMSC contains no dash. */
  lemma TransIdIff(qf: string, mmsc: string)
    ensures QfFromTransId(MakeTransId(qf, mmsc)) == qf <==> '-' !in mmsc
  {
    var id := MakeTransId(qf, mmsc);
    if '-' !in mmsc {
      IndexOfPrefix(mmsc, '-', qf);
      assert id[|mmsc| + 1..] == qf;
    } else {
      var i := IndexOf(id, '-');
      IndexOfFirst(id, '-');
      DashInFront(mmsc, qf);
      assert |id[i + 1..]| > |qf|;
    }
  }

  lemma DashInFront(mmsc: string, qf: string)
    requires '-' in mmsc
    ensures 0 <= IndexOf(mmsc + ['-'] + qf, '-') < |mmsc|
  {
    var s := mmsc + ['-'] + qf;
    var k :| 0 <= k < |mmsc| && mmsc[k] == '-';
    assert s[k] == '-';
    IndexOfFirst(s, '-');
    var i := IndexOf(s, '-');
    forall j | 0 <= j < i ensures s[j] != '-' {
      assert s[..i][j] == s[j];
    }
  }

  /** A message id leads back to its queue entry exactly when it names an MMSC, or the entry is in no directory. */
  lemma MsgIdIff(subdir: string, name: string, mmsc: Option<string>)
    requires IsSubdir(subdir) && IsName(name)
    ensures var qf := MakeQf(subdir, name);
            QfFromMsgId(MakeMsgId(qf, mmsc)) == qf <==> mmsc.Some? || subdir == ""
  {
    var qf := MakeQf(subdir, name);
    NoAtSign(subdir, name);
    match mmsc
    case Some(m) =>
      IndexOfPrefix(qf, '@', m);
      assert (qf + ['@'] + m)[..|qf|] == qf;
    case None =>
      IndexOfFirst(qf, '@');
      IndexOfFirst(qf, '-');
      if subdir == "" {
        NothingToReplace(subdir + name, '/', '-');
        assert '-' !in qf;
      } else {
        ReplaceAt(subdir + name, '/', '-', |subdir| - 1);
        assert '-' in qf;
      }
  }

  lemma NoAtSign(subdir: string, name: string)
    requires IsSubdir(subdir) && IsName(name)
    ensures '@' !in MakeQf(subdir, name) && MakeQf(subdir, name) != ""
  {
    var qf := MakeQf(subdir, name);
    forall i | 0 <= i < |qf| ensures qf[i] != '@' {
      ReplaceAt(subdir + name, '/', '-', i);
    }
  }

  // ---- MM4: the recipient in front of the transaction id ----

  function MakeMm4Id(to: string, transid: string): string {
    to + ['-'] + transid
  }

  datatype Mm4 = Mm4(to: Option<string>, qf: string)

  predicate HasPrefix(s: string, p: string) {
    |p| <= |s| && s[..|p|] == p
  }

  /** The first of the prefixes that the number starts with is taken off. */
  function StripPrefix(prefixes: seq<string>, num: string): string {
    if prefixes == [] then num
    else if HasPrefix(num, prefixes[0]) then num[|prefixes[0]|..]
    else StripPrefix(prefixes[1..], num)
  }

  /** mms_normalize_phonenum; `unify` is gwlib's normalize_number for the unified prefix. */
  function Normalize(prefixes: seq<string>, unify: string -> string, num: string): string {
    unify(StripPrefix(prefixes, num))
  }

  /** The recipient, if there is one, and the queue entry. */
  function ParseMm4Id(normalize: string -> string, id: string): Mm4 {
    var i := IndexOf(id, '-');
    if i > 0 then Mm4(Some(normalize(id[..i])), QfFromTransId(id[i + 1..])) else Mm4(None, QfFromTransId(id))
  }

  /** Both come back exactly when neither the recipient nor the name of the MMSC contains a dash, and the
      recipient is in normal form. */
  lemma Mm4Iff(normalize: string -> string, to: string, qf: string, mmsc: string)
    requires to != ""
    ensures ParseMm4Id(normalize, MakeMm4Id(to, MakeTransId(qf, mmsc))) == Mm4(Some(to), qf)
       <==> '-' !in to && '-' !in mmsc && normalize(to) == to
  {
    var rest := MakeTransId(qf, mmsc);
    var id := MakeMm4Id(to, rest);
    if '-' !in to {
      IndexOfPrefix(to, '-', rest);
      assert id[..|to|] == to && id[|to| + 1..] == rest;
      TransIdIff(qf, mmsc);
    } else {
      DashInFront(to, rest);
      LongerWithDash(to, qf, mmsc);
    }
  }

  /** A dash in the recipient moves every later cut to the front: too much is taken for the queue entry. */
  lemma LongerWithDash(to: string, qf: string, mmsc: string)
    requires '-' in to
    ensures var id := MakeMm4Id(to, MakeTransId(qf, mmsc)); QfFromTransId(id[IndexOf(id, '-') + 1..]) != qf && QfFromTransId(id) != qf
  {
    var id := MakeMm4Id(to, MakeTransId(qf, mmsc));
    DashInFront(to, MakeTransId(qf, mmsc));
    var i := IndexOf(id, '-');
    var left := id[i + 1..];
    var more := to[i + 1..];
    assert left == more + ['-'] + MakeTransId(qf, mmsc);
    DashAt(more, MakeTransId(qf, mmsc));
  }

  /** The first dash is no later than the one that is known. */
  lemma DashAt(front: string, rest: string)
    ensures 0 <= IndexOf(front + ['-'] + rest, '-') <= |front|
  {
    if '-' in front {
      DashInFront(front, rest);
    } else {
      IndexOfPrefix(front, '-', rest);
    }
  }

  /** A number keeps its front exactly when no prefix to strip is on it. */
  lemma {:induction false} UnstrippedIff(prefixes: seq<string>, num: string)
    requires "" !in prefixes
    ensures StripPrefix(prefixes, num) == num <==> forall p :: p in prefixes ==> !HasPrefix(num, p)
  {
    if prefixes != [] {
      if HasPrefix(num, prefixes[0]) {
        assert |num[|prefixes[0]|..]| < |num|;
      } else {
        UnstrippedIff(prefixes[1..], num);
        assert prefixes == [prefixes[0]] + prefixes[1..];
      }
    }
  }

  /** Without a unified prefix, recipient and entry come back exactly when neither name contains a dash and the
      number starts with no prefix that is stripped. */
  lemma Mm4NumberIff(prefixes: seq<string>, to: string, qf: string, mmsc: string)
    requires to != "" && "" !in prefixes
    ensures ParseMm4Id((n: string) => Normalize(prefixes, (x: string) => x, n), MakeMm4Id(to, MakeTransId(qf, mmsc))) == Mm4(Some(to), qf)
       <==> '-' !in to && '-' !in mmsc && forall p :: p in prefixes ==> !HasPrefix(to, p)
  {
    Mm4Iff((n: string) => Normalize(prefixes, (x: string) => x, n), to, qf, mmsc);
    UnstrippedIff(prefixes, to);
  }

  // ---- fetch URLs ----

  function Slashes(s: string): (n: nat)
    ensures n <= |s|
  {
    if s == "" then 0 else (if s[0] == '/' then 1 else 0) + Slashes(s[1..])
  }

  /** mms_makefetchurl, for a host part and a token that is URL-encoded already. */
  function MakeFetchUrl(host: string, qf: string, loc: nat, token: string): string {
    "http://" + host + "/" + (qf + "@" + Digits(loc)) + "/" + token
  }

  datatype Fetch = Fetch(qf: string, token: string, loc: int)

  /** The last slash at or before `i`, or 0. */
  function BackToSlash(s: string, i: nat): (k: nat)
    requires i < |s|
    ensures k <= i
  {
    if i > 0 && s[i] != '/' then BackToSlash(s, i - 1) else i
  }

  /** The first slash from `j` on, or the end. */
  function OnToSlash(s: string, j: nat): (k: nat)
    requires j <= |s|
    ensures j <= k <= |s|
    decreases |s| - j
  {
    if j < |s| && s[j] != '/' then OnToSlash(s, j + 1) else j
  }

  function Clip(s: string, from: nat, to: int): string {
    if from >= |s| || to <= from then "" else s[from..if to < |s| then to else |s|]
  }

  /** The queue entry and the location in the last component but one. */
  function Located(qfloc: string, token: string): Fetch {
    var i := IndexOf(qfloc, '@');
    if i < 0 then Fetch(qfloc, token, 1)
    else match ScanLong(qfloc[i + 1..])
      case NoScan => Fetch(qfloc[..i], token, 1)
      case Scan(n, _) => Fetch(qfloc[..i], token, n)
  }

  /** A slash is added at the end of a URL that has fewer than two. */
  function Padded(url: string): string {
    if Slashes(url) < 2 then url + "/" else url
  }

  /** Where the last component but one begins. */
  function StartOf(x: string): (i: nat)
    requires x != ""
    ensures i <= |x|
  {
    var last := LastIndexOf(x, '/');
    var i := BackToSlash(x, if last > 0 then last - 1 else 0);
    if x[i] == '/' then i + 1 else i
  }

  datatype Components = Components(qfloc: string, token: string)

  /** What lies from `i` to `j` and after `j`, in a URL padded to `n` characters. */
  function Cut(url: string, n: nat, i: nat, j: nat): Components {
    Components(Clip(url, i, j), if j < n then Clip(url, j + 1, n) else "")
  }

  /** The last two components of a URL. */
  function LastComponents(url: string): Components {
    var x := Padded(url);
    Cut(url, |x|, StartOf(x), OnToSlash(x, StartOf(x)))
  }

  /** mms_decodefetchurl. */
  function DecodeFetchUrl(url: string): Fetch {
    var c := LastComponents(url);
    Located(c.qfloc, c.token)
  }

  lemma {:induction false} SlashCounts(a: string, b: string)
    ensures Slashes(a + b) == Slashes(a) + Slashes(b)
  {
    if a == "" {
      assert a + b == b;
    } else {
      assert (a + b)[1..] == a[1..] + b;
      SlashCounts(a[1..], b);
    }
  }

  lemma {:induction false} BackFinds(s: string, i: nat, k: nat)
    requires k <= i < |s| && s[k] == '/' && forall m :: k < m <= i ==> s[m] != '/'
    ensures BackToSlash(s, i) == k
  {
    if i > k {
      BackFinds(s, i - 1, k);
    }
  }

  lemma {:induction false} OnFinds(s: string, j: nat, k: nat)
    requires j <= k < |s| && s[k] == '/' && forall m :: j <= m < k ==> s[m] != '/'
    ensures OnToSlash(s, j) == k
    decreases k - j
  {
    if j < k {
      OnFinds(s, j + 1, k);
    }
  }

  lemma EnoughSlashes(front: string, qfloc: string, token: string)
    ensures Padded(front + "/" + qfloc + "/" + token) == front + "/" + qfloc + "/" + token
  {
    SlashCounts(front + "/" + qfloc + "/", token);
    SlashCounts(front + "/" + qfloc, "/");
    SlashCounts(front + "/", qfloc);
    SlashCounts(front, "/");
    assert Slashes("/") == 1;
  }

  /** The last two slashes of a URL delimit its last two components. */
  lemma SlashesFound(x: string, k: nat, last: nat)
    requires k < last < |x| && x[k] == '/' && LastIndexOf(x, '/') == last
    requires forall m :: k < m < last ==> x[m] != '/'
    ensures StartOf(x) == k + 1 && OnToSlash(x, k + 1) == last
  {
    BackFinds(x, last - 1, k);
    OnFinds(x, k + 1, last);
  }

  lemma DecodedBetween(url: string, k: nat, last: nat)
    requires Padded(url) == url && k < last < |url| && url[k] == '/' && LastIndexOf(url, '/') == last
    requires forall m :: k < m < last ==> url[m] != '/'
    ensures LastComponents(url) == Components(url[k + 1..last], url[last + 1..])
  {
    SlashesFound(url, k, last);
    DecodedAt(url, k + 1, last);
  }

  lemma DecodedAt(url: string, i: nat, j: nat)
    requires Padded(url) == url && i <= j < |url| && StartOf(url) == i && OnToSlash(url, i) == j
    ensures LastComponents(url) == Components(url[i..j], url[j + 1..])
  {
    UnpaddedComponents(url);
    CutBetween(url, i, j);
  }

  lemma UnpaddedComponents(url: string)
    requires Padded(url) == url && url != ""
    ensures LastComponents(url) == Cut(url, |url|, StartOf(url), OnToSlash(url, StartOf(url)))
  {
  }

  lemma CutBetween(url: string, i: nat, j: nat)
    requires i <= j < |url|
    ensures Cut(url, |url|, i, j) == Components(url[i..j], url[j + 1..])
  {
    Clipped(url, i, j);
    Clipped(url, j + 1, |url|);
    assert url[j + 1..|url|] == url[j + 1..];
  }

  lemma Clipped(s: string, i: nat, j: nat)
    requires i <= j <= |s|
    ensures Clip(s, i, j) == s[i..j]
  {
    if i == j {
      assert s[i..j] == "";
    }
  }

  lemma UrlShape(front: string, qfloc: string, token: string)
    requires '/' !in qfloc && '/' !in token
    ensures var url, k, last := front + "/" + qfloc + "/" + token, |front|, |front| + 1 + |qfloc|;
            && last < |url| && url[k] == '/' && LastIndexOf(url, '/') == last
            && (forall m :: k < m < last ==> url[m] != '/')
            && url[k + 1..last] == qfloc && url[last + 1..] == token
  {
    var head := front + "/" + qfloc;
    var url := head + "/" + token;
    assert url == head + ['/'] + token;
    LastIndexOfSuffix(head, '/', token);
    assert forall m :: |front| < m < |head| ==> url[m] == qfloc[m - |front| - 1];
  }

  /** Whatever comes before, the last two components of a URL are found. */
  lemma LastTwo(front: string, qfloc: string, token: string)
    requires '/' !in qfloc && '/' !in token
    ensures LastComponents(front + "/" + qfloc + "/" + token) == Components(qfloc, token)
  {
    EnoughSlashes(front, qfloc, token);
    UrlShape(front, qfloc, token);
    DecodedBetween(front + "/" + qfloc + "/" + token, |front|, |front| + 1 + |qfloc|);
  }

  /** The path that the fetch request arrives with, and the whole URL, lead back to the queue entry. */
  lemma FetchUrlRoundTrip(front: string, host: string, subdir: string, name: string, loc: nat, token: string)
    requires IsSubdir(subdir) && IsName(name) && '/' !in token && loc <= LONG_MAX
    ensures var qf := MakeQf(subdir, name);
            && DecodeFetchUrl(MakeFetchUrl(host, qf, loc, token)) == Fetch(qf, token, loc)
            && DecodeFetchUrl(front + "/" + (qf + "@" + Digits(loc)) + "/" + token) == Fetch(qf, token, loc)
            && GetSubdir(DecodeFetchUrl(MakeFetchUrl(host, qf, loc, token)).qf) == Place(subdir, name)
  {
    var qf := MakeQf(subdir, name);
    var qfloc := qf + "@" + Digits(loc);
    QfRoundTrip(subdir, name);
    NoAtSign(subdir, name);
    DigitsAreDigits(loc);
    assert qfloc == qf + ['@'] + Digits(loc);
    IndexOfPrefix(qf, '@', Digits(loc));
    assert qfloc[|qf| + 1..] == Digits(loc) && qfloc[..|qf|] == qf;
    NumberScans(loc);
    LastTwo("http://" + host, qfloc, token);
    LastTwo(front, qfloc, token);
  }

  lemma NumberScans(n: nat)
    requires n <= LONG_MAX
    ensures ScanLong(Digits(n)) == Scan(n, "")
  {
    ScanDigits(n, "");
    assert Digits(n) + "" == Digits(n);
  }

  /** Main result, from mkqf on: by whichever identifier an entry is asked for, it is found in its place. */
  lemma EntryIsFound(d: Draw, time: nat, count: nat, pid: nat, random: nat, mmsc: string, host: string, loc: nat, token: string)
    requires d.Plain() && '-' !in mmsc && '/' !in token && loc <= LONG_MAX
    ensures var name := QueueName(time, count, pid, random);
            var qf := MakeQf(d.Subdir(), name);
            && GetSubdir(QfFromTransId(MakeTransId(qf, mmsc))) == Place(d.Subdir(), name)
            && GetSubdir(QfFromMsgId(MakeMsgId(qf, Some(mmsc)))) == Place(d.Subdir(), name)
            && GetSubdir(DecodeFetchUrl(MakeFetchUrl(host, qf, loc, token)).qf) == Place(d.Subdir(), name)
  {
    var name := QueueName(time, count, pid, random);
    MkqfNames(d, time, count, pid, random);
    QfRoundTrip(d.Subdir(), name);
    TransIdIff(MakeQf(d.Subdir(), name), mmsc);
    MsgIdIff(d.Subdir(), name, Some(mmsc));
    FetchUrlRoundTrip("", host, d.Subdir(), name, loc, token);
  }

  // ---- the loops ----

  method CountSlashes(s: string) returns (n: nat)
    ensures n == Slashes(s)
  {
    n := 0;
    for i := 0 to |s|
      invariant n == Slashes(s[..i])
    {
      assert s[..i + 1] == s[..i] + [s[i]];
      SlashCounts(s[..i], [s[i]]);
      assert [s[i]][1..] == "";
      if s[i] == '/' {
        n := n + 1;
      }
    }
    assert s[..|s|] == s;
  }

  /** Back from the last slash to the one before it. */
  method FindStart(s: string) returns (i: nat)
    requires s != ""
    ensures i == StartOf(s)
  {
    var p := LastIndexOf(s, '/');
    i := if p > 0 then p - 1 else 0;
    ghost var first := i;
    while i > 0 && s[i] != '/'
      invariant i <= first && BackToSlash(s, i) == BackToSlash(s, first)
    {
      i := i - 1;
    }
    if s[i] == '/' {
      i := i + 1;
    }
  }

  method FindEnd(s: string, i: nat) returns (j: nat)
    requires i <= |s|
    ensures j == OnToSlash(s, i)
  {
    j := i;
    while j < |s| && s[j] != '/'
      invariant i <= j <= |s| && OnToSlash(s, j) == OnToSlash(s, i)
    {
      j := j + 1;
    }
  }

  method Pad(url: string) returns (s: string)
    ensures s == Padded(url) && s != ""
  {
    s := url;
    var n := CountSlashes(s);
    if n < 2 {
      s := s + "/";
    }
  }

  /** mms_decodefetchurl, with its index loops. */
  method DecodeUrl(fetchUrl: string) returns (qf: string, token: string, loc: int)
    ensures Fetch(qf, token, loc) == DecodeFetchUrl(fetchUrl)
  {
    var s := Pad(fetchUrl);
    var i := FindStart(s);
    var j := FindEnd(s, i);
    var c := Cut(fetchUrl, |s|, i, j);
    var f := Located(c.qfloc, c.token);
    return f.qf, f.token, f.loc;
  }
}
