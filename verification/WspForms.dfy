/**
  Header field values on the wire (section 8.4 of WAP-230-WSP) as gwlib packs and reads them: a short
  integer, a text, or data with its length in front.
 */
module WspForms {
  import opened Wrappers
  import opened Text
  import opened Octets

  datatype Form = Short(n: nat) | Words(text: string) | Framed(data: string)

  /** A form that was read and what follows it; or no form, and where the reader gave up. */
  datatype FormRead = GotForm(form: Form, left: string) | NoForm(left: string)

  const NUL: char := '\0'
  const QUOTE: char := 127 as char

  /** wsp_pack_text puts a quote octet before a text that is empty or starts with a control character or a high one. */
  predicate NeedsQuote(t: string) {
    t == "" || t[0] as int >= 128 || t[0] as int < 32
  }

  function Quoted(t: string): string {
    if NeedsQuote(t) then [QUOTE] + t else t
  }

  /** What wsp_field_value makes of it: either quote character goes, whether or not wsp_pack_text put it there. */
  function Unquoted(t: string): string {
    if t != "" && (t[0] == QUOTE || t[0] == '"') then t[1..] else t
  }

  function PackText(t: string): string {
    Quoted(t) + [NUL]
  }

  /** wsp_pack_value: the length, in one octet up to 30. */
  function PackValue(data: string): string {
    (if |data| <= 30 then [Octet(|data|)] else [Octet(31)] + UintVar(|data|)) + data
  }

  function Write(f: Form): string {
    match f
    case Short(n) => [Octet(128 + n % 128)]
    case Words(t) => PackText(t)
    case Framed(d) => PackValue(d)
  }

  /** parse_get_nul_string: a text up to the next NUL, and what follows. */
  datatype Str = Str(text: string, left: string) | NoStr

  function NulString(left: string): (r: Str)
    ensures r.Str? ==> |r.left| < |left|
  {
    var i := IndexOf(left, NUL);
    if i < 0 then NoStr else Str(left[..i], left[i + 1..])
  }

  function TextForm(left: string): (r: FormRead)
    ensures r.GotForm? ==> |r.left| < |left|
  {
    match NulString(left)
    case NoStr => NoForm(left)
    case Str(t, l) => GotForm(Words(t), l)
  }

  function DataForm(left: string, n: nat): (r: FormRead)
    ensures r.GotForm? ==> |r.left| <= |left|
  {
    if n <= |left| then GotForm(Framed(left[..n]), left[n..]) else NoForm("")
  }

  /** wsp_field_value and the value it announces. */
  function ReadForm(left: string): (r: FormRead)
    ensures r.GotForm? ==> |r.left| < |left|
  {
    if left == "" then NoForm("")
    else
      var c := left[0] as int;
      if 0 < c < 31 then DataForm(left[1..], c)
      else if c == 31 then (var n := ReadUintVar(left[1..]); if |n.left| == |left| - 1 then NoForm("") else DataForm(n.left, n.value))
      else if c > 127 then GotForm(Short((c - 128) % 128), left[1..])
      else if left[0] == QUOTE || left[0] == '"' then TextForm(left[1..])
      else TextForm(left)
  }

  predicate Writable(f: Form) {
    match f
    case Short(_) => true
    case Words(t) => NUL !in t
    case Framed(d) => 0 < |d| < 0x8000_0000
  }

  /** The form that arrives when `f` is sent. */
  function Arrived(f: Form): Form {
    match f
    case Short(n) => Short(n % 128)
    case Words(t) => Words(Unquoted(t))
    case Framed(d) => f
  }

  lemma NulStringReadsBack(t: string, rest: string)
    requires NUL !in t
    ensures NulString(t + [NUL] + rest) == Str(t, rest)
  {
    IndexOfPrefix(t, NUL, rest);
    var s := t + [NUL] + rest;
    assert s[..|t|] == t && s[|t| + 1..] == rest;
  }

  lemma TextArrives(t: string, rest: string)
    requires NUL !in t
    ensures ReadForm(PackText(t) + rest) == GotForm(Words(Unquoted(t)), rest)
  {
    var s := PackText(t) + rest;
    if NeedsQuote(t) {
      assert s[1..] == t + [NUL] + rest;
      NulStringReadsBack(t, rest);
    } else {
      assert s == t + [NUL] + rest;
      if Unquoted(t) == t {
        NulStringReadsBack(t, rest);
      } else {
        assert s[1..] == t[1..] + [NUL] + rest;
        NulStringReadsBack(t[1..], rest);
      }
    }
  }

  lemma DataArrives(data: string, rest: string)
    requires 0 < |data| < 0x8000_0000
    ensures ReadForm(PackValue(data) + rest) == GotForm(Framed(data), rest)
  {
    var s := PackValue(data) + rest;
    assert (data + rest)[..|data|] == data && (data + rest)[|data|..] == rest;
    if |data| <= 30 {
      assert s[1..] == data + rest;
    } else {
      assert s[1..] == UintVar(|data|) + (data + rest);
      UintVarRoundTrip(|data|, data + rest);
    }
  }

  /** Whatever the form, the reader takes exactly what was written. */
  lemma FormArrives(f: Form, rest: string)
    requires Writable(f)
    ensures ReadForm(Write(f) + rest) == GotForm(Arrived(f), rest)
  {
    match f
    case Short(n) => assert ([Octet(128 + n % 128)] + rest)[1..] == rest;
    case Words(t) => TextArrives(t, rest);
    case Framed(d) => DataArrives(d, rest);
  }

  // ---- integers ----

  /** The octets of a number, most significant first; none for zero. */
  function Bytes(n: nat): (s: string)
    ensures n == 0 <==> s == ""
  {
    if n == 0 then "" else Bytes(n / 256) + [Octet(n % 256)]
  }

  function Value(s: string, acc: nat): nat {
    if s == "" then acc else Value(s[1..], acc * 256 + s[0] as int)
  }

  lemma {:induction false} BytesValue(n: nat, rest: string)
    ensures Value(Bytes(n) + rest, 0) == Value(rest, n)
  {
    if n == 0 {
      assert "" + rest == rest;
    } else {
      var last := [Octet(n % 256)];
      assert Bytes(n) + rest == Bytes(n / 256) + (last + rest);
      BytesValue(n / 256, last + rest);
      assert (last + rest)[1..] == rest;
    }
  }

  lemma {:induction false} BytesLength(n: nat, k: nat, top: nat)
    requires n < top && top == Top(k)
    ensures |Bytes(n)| <= k
  {
    if n > 0 {
      BytesLength(n / 256, k - 1, Top(k - 1));
    }
  }

  function Top(k: nat): nat {
    if k == 0 then 1 else 256 * Top(k - 1)
  }

  /** What fits the C type long. */
  predicate Countable(n: nat) {
    n <= LONG_MAX
  }

  /** wsp_pack_long_integer. */
  function LongInteger(n: nat): Form {
    Framed(if n == 0 then [Octet(0)] else Bytes(n))
  }

  /** wsp_pack_integer_value. */
  function Integer(n: nat): Form {
    if n < 128 then Short(n) else LongInteger(n)
  }

  /** Up to eight octets hold a number. */
  function Number(data: string): Option<nat> {
    if |data| <= 8 then Some(Value(data, 0)) else None
  }

  lemma LongIntegerNumber(n: nat)
    requires Countable(n)
    ensures Writable(LongInteger(n)) && |LongInteger(n).data| <= 8 && Number(LongInteger(n).data) == Some(n)
  {
    assert Top(8) == 0x1_0000_0000_0000_0000;
    BytesLength(n, 8, Top(8));
    BytesValue(n, "");
    assert Bytes(n) + "" == Bytes(n);
    if n == 0 {
      assert [Octet(0)][1..] == "";
      assert Value([Octet(0)], 0) == Value("", 0);
    }
  }

  /** wsp_unpack_integer_value: a short integer, or octets with their number in front. */
  function TakeInteger(data: string): Option<Uint> {
    if data == "" then None
    else
      var c := data[0] as int;
      if c > 127 then Some(Uint((c - 128) % 128, data[1..]))
      else if c <= 8 && c < |data| then Some(Uint(Value(data[1..1 + c], 0), data[1 + c..]))
      else None
  }

  lemma LongIntegerArrives(n: nat, rest: string)
    requires Countable(n)
    ensures TakeInteger(Write(LongInteger(n)) + rest) == Some(Uint(n, rest))
    ensures 0 < |Write(LongInteger(n))| <= 9
  {
    LongIntegerNumber(n);
    var d := LongInteger(n).data;
    var s := Write(LongInteger(n)) + rest;
    assert s == [Octet(|d|)] + d + rest;
    assert s[1..1 + |d|] == d && s[1 + |d|..] == rest;
  }

  lemma IntegerArrives(n: nat, rest: string)
    requires Countable(n)
    ensures Writable(Integer(n))
    ensures TakeInteger(Write(Integer(n)) + rest) == Some(Uint(n, rest))
    ensures 0 < |Write(Integer(n))| <= 9
  {
    if n < 128 {
      assert ([Octet(128 + n % 128)] + rest)[1..] == rest;
    } else {
      LongIntegerNumber(n);
      LongIntegerArrives(n, rest);
    }
  }
}
