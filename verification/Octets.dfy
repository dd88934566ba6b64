/**
  Octets as characters, and the variable-length integer of section 8.1.2 of WAP-230-WSP as gwlib writes
  and reads it.
 */
module Octets {
  import opened Wrappers

  function Octet(n: nat): (c: char)
    requires n < 256
    ensures c as int == n
  {
    n as char
  }

  /** The octets that carry the high bits of `v`, most significant first: at most `room` of them. */
  function HighGroups(v: nat, room: nat): (s: string)
    ensures |s| <= room
    decreases v
  {
    if v == 0 || room == 0 then "" else HighGroups(v / 128, room - 1) + [Octet(128 + v % 128)]
  }

  /** octstr_append_uintvar: five octets at most. */
  function UintVar(v: nat): (s: string)
    ensures 1 <= |s| <= 5
  {
    HighGroups(v / 128, 4) + [Octet(v % 128)]
  }

  /** An integer that was read, and what follows it. */
  datatype Uint = Uint(value: nat, left: string)

  /** The value that ends within `room` octets of the front of `left`, continuing from `acc`. */
  function ReadGroups(left: string, acc: nat, room: nat): (r: Option<Uint>)
    ensures r.Some? ==> |r.value.left| < |left|
    decreases |left|
  {
    if room == 0 || left == "" then None
    else
      var c := left[0] as int;
      if c < 128 then Some(Uint(acc * 128 + c, left[1..])) else ReadGroups(left[1..], acc * 128 + c % 128, room - 1)
  }

  /** parse_get_uintvar: a malformed or cut integer reads as 0, and nothing is consumed. */
  function ReadUintVar(left: string): (r: Uint)
    ensures |r.left| <= |left|
    ensures |r.left| == |left| ==> r == Uint(0, left)
  {
    match ReadGroups(left, 0, 5)
    case None => Uint(0, left)
    case Some(r) => r
  }

  /** How many values fit into `room` groups of seven bits. */
  function Span(room: nat): (n: nat)
    ensures n >= 1
  {
    if room == 0 then 1 else 128 * Span(room - 1)
  }

  lemma {:induction false} ReadHighGroups(v: nat, room: nat, rest: string, n: nat)
    requires v < Span(room) && room <= n
    ensures ReadGroups(HighGroups(v, room) + rest, 0, n) == ReadGroups(rest, v, n - |HighGroups(v, room)|)
  {
    if v == 0 {
      assert "" + rest == rest;
    } else {
      var high := HighGroups(v / 128, room - 1);
      var last := [Octet(128 + v % 128)];
      assert high + last + rest == high + (last + rest);
      ReadHighGroups(v / 128, room - 1, last + rest, n);
      assert (last + rest)[1..] == rest;
    }
  }

  /** Every integer of up to 35 bits reads back, and the reader stops right after it. */
  lemma UintVarRoundTrip(v: nat, rest: string)
    requires v < 0x8_0000_0000
    ensures ReadUintVar(UintVar(v) + rest) == Uint(v, rest)
  {
    var last := [Octet(v % 128)];
    assert UintVar(v) + rest == HighGroups(v / 128, 4) + (last + rest);
    assert Span(4) == 0x1000_0000;
    ReadHighGroups(v / 128, 4, last + rest, 5);
    assert (last + rest)[1..] == rest;
  }

  /** An unsigned long stored in an int of 32 bits. */
  function AsInt(n: nat): (i: int)
    ensures -0x8000_0000 <= i < 0x8000_0000
    ensures n < 0x8000_0000 ==> i == n
  {
    var low := n % 0x1_0000_0000;
    if low < 0x8000_0000 then low else low - 0x1_0000_0000
  }
}
