/**
  The string operations of gwlib and libc that the codecs rely on, on C strings: searching, blank
  stripping, case folding, and printing and parsing decimal numbers.
 */
module Text {
  import opened Wrappers

  // ---- searching ----

  /** Index of the first `c` in `s`, or -1. */
  function IndexOf(s: string, c: char): (i: int)
    ensures -1 <= i < |s|
    ensures i >= 0 ==> s[i] == c
  {
    if s == "" then -1
    else if s[0] == c then 0
    else
      var j := IndexOf(s[1..], c);
      if j < 0 then -1 else j + 1
  }

  lemma {:induction false} IndexOfPrefix(p: string, c: char, rest: string)
    requires c !in p
    ensures IndexOf(p + [c] + rest, c) == |p|
  {
    if p != "" {
      assert (p + [c] + rest)[1..] == p[1..] + [c] + rest;
      IndexOfPrefix(p[1..], c, rest);
    }
  }

  /** The search stops at the first occurrence and misses none. */
  lemma {:induction false} IndexOfFirst(s: string, c: char)
    ensures var i := IndexOf(s, c); if i < 0 then c !in s else c !in s[..i]
  {
    if s != "" && s[0] != c {
      IndexOfFirst(s[1..], c);
      assert s == [s[0]] + s[1..];
      var j := IndexOf(s[1..], c);
      if j >= 0 {
        assert s[..j + 1] == [s[0]] + s[1..][..j];
      }
    }
  }

  /** Index of the last `c` in `s`, or -1. */
  function LastIndexOf(s: string, c: char): (i: int)
    ensures -1 <= i < |s|
    ensures i >= 0 ==> s[i] == c
  {
    if s == "" then -1
    else if s[|s| - 1] == c then |s| - 1
    else LastIndexOf(s[..|s| - 1], c)
  }

  lemma {:induction false} LastIndexOfSuffix(p: string, c: char, rest: string)
    requires c !in rest
    ensures LastIndexOf(p + [c] + rest, c) == |p|
  {
    if rest != "" {
      var n := |rest| - 1;
      assert (p + [c] + rest)[..|p| + 1 + n] == p + [c] + rest[..n];
      LastIndexOfSuffix(p, c, rest[..n]);
    }
  }

  // ---- blanks and case ----

  /** isspace in the C locale. */
  predicate IsSpace(c: char) {
    c == ' ' || '\t' <= c <= '\r'
  }

  function StripLeft(s: string): string {
    if s != "" && IsSpace(s[0]) then StripLeft(s[1..]) else s
  }

  function StripRight(s: string): string {
    if s != "" && IsSpace(s[|s| - 1]) then StripRight(s[..|s| - 1]) else s
  }

  /** octstr_strip_blanks. */
  function StripBlanks(s: string): string {
    StripRight(StripLeft(s))
  }

  predicate Trimmed(s: string) {
    s == "" || (!IsSpace(s[0]) && !IsSpace(s[|s| - 1]))
  }

  function ToLower(c: char): char {
    if 'A' <= c <= 'Z' then c - 'A' + 'a' else c
  }

  /** octstr_case_compare(a, b) == 0. */
  predicate EqNoCase(a: string, b: string) {
    |a| == |b| && forall i :: 0 <= i < |a| ==> ToLower(a[i]) == ToLower(b[i])
  }

  /** octstr_case_search from the start: index of the first place where `p` occurs whatever the case, or -1. */
  function SearchNoCase(s: string, p: string): (i: int)
    ensures -1 <= i <= |s|
  {
    if |s| < |p| then -1
    else if EqNoCase(s[..|p|], p) then 0
    else if s == "" then -1
    else
      var j := SearchNoCase(s[1..], p);
      if j < 0 then -1 else j + 1
  }

  /** `p` occurs in `s` at `i`, whatever the case. */
  predicate OccursAt(s: string, p: string, i: int) {
    0 <= i && i + |p| <= |s| && EqNoCase(s[i..i + |p|], p)
  }

  lemma OccursLater(s: string, p: string, j: int)
    requires s != "" && j >= 1
    ensures OccursAt(s, p, j) <==> OccursAt(s[1..], p, j - 1)
  {
    if j + |p| <= |s| {
      var a, b := s[1..][j - 1..j - 1 + |p|], s[j..j + |p|];
      assert |a| == |b| && forall k :: 0 <= k < |a| ==> a[k] == b[k];
    }
  }

  /** The search finds the first occurrence and misses none. */
  lemma {:induction false} SearchFirst(s: string, p: string)
    requires p != ""
    ensures var i := SearchNoCase(s, p);
            (i >= 0 ==> OccursAt(s, p, i)) && forall j :: OccursAt(s, p, j) ==> 0 <= i <= j
  {
    if |s| >= |p| {
      assert s[0..0 + |p|] == s[..|p|];
      if !EqNoCase(s[..|p|], p) {
        SearchFirst(s[1..], p);
        forall j | j >= 1 ensures OccursAt(s, p, j) <==> OccursAt(s[1..], p, j - 1) {
          OccursLater(s, p, j);
        }
      }
    }
  }

  /** The place that holds an occurrence and has none before it is where the search ends. */
  lemma SearchIs(s: string, p: string, i: nat)
    requires p != "" && OccursAt(s, p, i)
    requires forall j :: OccursAt(s, p, j) ==> i <= j
    ensures SearchNoCase(s, p) == i
  {
    SearchFirst(s, p);
  }

  // ---- lines ----

  /** octstr_strip_crlfs. */
  function StripCrLf(s: string): (r: string)
    ensures '\r' !in s && '\n' !in s ==> r == s
  {
    if s != "" && (s[0] == '\r' || s[0] == '\n') then StripCrLf(s[1..])
    else if s != "" && (s[|s| - 1] == '\r' || s[|s| - 1] == '\n') then StripCrLf(s[..|s| - 1])
    else s
  }

  /** parse_get_line: the next complete line and what follows it; an unterminated line is no line. */
  function NextLine(data: string): (r: Option<(string, string)>)
    ensures r.Some? ==> |r.value.1| < |data|
  {
    var i := IndexOf(data, '\n');
    if i < 0 then None else Some((StripCrLf(data[..i]), data[i + 1..]))
  }

  // ---- decimal numbers ----

  predicate IsDigit(c: char) {
    '0' <= c <= '9'
  }

  function DigitValue(c: char): (d: nat)
    requires IsDigit(c)
    ensures d < 10
  {
    (c - '0') as nat
  }

  function DigitChar(d: nat): (c: char)
    requires d < 10
    ensures IsDigit(c) && DigitValue(c) == d
  {
    '0' + d as char
  }

  /** Decimal print of a natural number. */
  function Digits(n: nat): (s: string)
    ensures s != "" && IsDigit(s[0])
  {
    if n < 10 then [DigitChar(n)] else Digits(n / 10) + [DigitChar(n % 10)]
  }

  lemma {:induction false} DigitsAreDigits(n: nat)
    ensures forall i :: 0 <= i < |Digits(n)| ==> IsDigit(Digits(n)[i])
  {
    if n >= 10 {
      DigitsAreDigits(n / 10);
    }
  }

  /** The value of the leading digits of `s`, continuing from `acc`. */
  function ScanNat(s: string, acc: nat): nat {
    if s != "" && IsDigit(s[0]) then ScanNat(s[1..], acc * 10 + DigitValue(s[0])) else acc
  }

  /** What follows the leading digits of `s`. */
  function SkipDigits(s: string): (r: string)
    ensures |r| <= |s| && (r == "" || !IsDigit(r[0]))
  {
    if s != "" && IsDigit(s[0]) then SkipDigits(s[1..]) else s
  }

  /** Scanning printed digits continues with the number. */
  lemma {:induction false} ScanDigits(n: nat, rest: string)
    ensures ScanNat(Digits(n) + rest, 0) == ScanNat(rest, n)
    ensures SkipDigits(Digits(n) + rest) == SkipDigits(rest)
  {
    if n < 10 {
      assert ([DigitChar(n)] + rest)[1..] == rest;
    } else {
      var d := DigitChar(n % 10);
      assert Digits(n) + rest == Digits(n / 10) + ([d] + rest);
      ScanDigits(n / 10, [d] + rest);
      assert ([d] + rest)[1..] == rest;
    }
  }

  const LONG_MAX: int := 0x7fff_ffff_ffff_ffff
  const ULONG_SIZE: int := 0x1_0000_0000_0000_0000

  /** The C type long (and time_t): 64 bits. */
  type Long = n: int | -LONG_MAX - 1 <= n <= LONG_MAX

  predicate IsLong(n: int) {
    -LONG_MAX - 1 <= n <= LONG_MAX
  }

  /** The C type unsigned long. */
  type ULong = n: int | 0 <= n < ULONG_SIZE

  /** printf "%ld". */
  function PrintLong(n: Long): (s: string)
    ensures s != "" && !IsSpace(s[0])
  {
    var m: int := n;
    if m < 0 then "-" + Digits(-m) else Digits(m)
  }

  /** atol: optional blanks and sign, then digits; out-of-range values saturate. */
  function ParseLong(s: string): Long {
    var t := StripLeft(s);
    var n: int := if t != "" && t[0] == '-' then 0 - ScanNat(t[1..], 0) as int
             else if t != "" && t[0] == '+' then ScanNat(t[1..], 0)
             else ScanNat(t, 0);
    if n < -LONG_MAX - 1 then -LONG_MAX - 1 else if n > LONG_MAX then LONG_MAX else n
  }

  /** atol reads back what "%ld" prints. */
  lemma LongRoundTrip(n: Long)
    ensures ParseLong(PrintLong(n)) == n
  {
    var k: int := n;
    var m: nat := if k < 0 then -k else k;
    ScanDigits(m, "");
    assert Digits(m) + "" == Digits(m);
    if n < 0 {
      assert PrintLong(n)[1..] == Digits(m);
    }
    assert !IsSpace(PrintLong(n)[0]);
    assert StripLeft(PrintLong(n)) == PrintLong(n);
  }

  /** octstr_parse_long: the number at the front of a text and what follows it. */
  datatype Scan = Scan(n: int, rest: string) | NoScan

  function ScanLong(s: string): Scan {
    var t := StripLeft(s);
    var u := if t != "" && (t[0] == '-' || t[0] == '+') then t[1..] else t;
    if u == "" || !IsDigit(u[0]) then NoScan
    else
      var n: int := if t[0] == '-' then 0 - ScanNat(u, 0) as int else ScanNat(u, 0);
      if IsLong(n) then Scan(n, SkipDigits(u)) else NoScan
  }

  predicate StartsWithDigit(v: string) {
    v != "" && IsDigit(v[0])
  }

  /** An unsigned long passed to "%ld", and an atol result stored in an unsigned long. */
  function AsLong(u: ULong): Long {
    if u > LONG_MAX then u - ULONG_SIZE else u
  }

  function AsULong(n: Long): ULong {
    if n < 0 then n + ULONG_SIZE else n
  }
}
