/** gwlib's ParseContext, a reader with nested limits, and its growing octet string. */
module OctetStreams {
  import opened Wrappers
  import opened Text
  import opened Octets
  import opened WspForms

  class ParseContext {
    const data: string
    var pos: nat
    var limit: nat
    /** The limits that the current one hides, the latest first. */
    var limits: seq<nat>
    var error: bool

    ghost predicate Valid()
      reads this
    {
      pos <= limit <= |data| && forall i :: 0 <= i < |limits| ==> limit <= limits[i] <= |data|
    }

    /** What has not been read yet, up to the limit. */
    ghost function Left(): string
      reads this
      requires Valid()
    {
      data[pos..limit]
    }

    constructor (data: string)
      ensures Valid() && Left() == data && limits == [] && !error
    {
      this.data := data;
      pos, limit, limits, error := 0, |data|, [], false;
    }

    /** parse_get_line. */
    method GetLine() returns (line: Option<string>)
      requires Valid()
      modifies this`pos, this`error
      ensures Valid()
      ensures match NextLine(old(Left()))
              case None => line == None && Left() == old(Left()) && error
              case Some((l, rest)) => line == Some(l) && Left() == rest && error == old(error)
    {
      var left := data[pos..limit];
      var i := IndexOf(left, '\n');
      if i < 0 {
        error := true;
        return None;
      }
      line := Some(StripCrLf(left[..i]));
      pos := pos + i + 1;
    }

    /** parse_get_char: -1 if nothing is left. */
    method GetChar() returns (c: int)
      requires Valid()
      modifies this`pos, this`error
      ensures Valid()
      ensures if old(Left()) == "" then c == -1 && pos == old(pos) && error
              else c == old(Left())[0] as int && pos == old(pos) + 1 && Left() == old(Left())[1..] && error == old(error)
    {
      if pos == limit {
        error := true;
        return -1;
      }
      c := data[pos] as int;
      pos := pos + 1;
    }

    /** parse_skip by -1. */
    method StepBack()
      requires Valid() && pos > 0
      modifies this`pos
      ensures Valid() && pos == old(pos) - 1 && Left() == [data[pos]] + old(Left())
    {
      pos := pos - 1;
    }

    /** parse_get_nul_string. */
    method GetNulString() returns (text: Option<string>)
      requires Valid()
      modifies this`pos, this`error
      ensures Valid()
      ensures match NulString(old(Left()))
              case NoStr => text == None && Left() == old(Left()) && error
              case Str(t, rest) => text == Some(t) && Left() == rest && error == old(error)
    {
      var left := data[pos..limit];
      var i := IndexOf(left, NUL);
      if i < 0 {
        error := true;
        return None;
      }
      text := Some(left[..i]);
      assert left[i + 1..] == data[pos + i + 1..limit];
      pos := pos + i + 1;
    }

    /** parse_get_uintvar. The scan does not look at the limit until it is done. */
    method GetUintVar() returns (value: nat)
      requires Valid()
      modifies this`pos, this`error
      ensures Valid() && Uint(value, Left()) == ReadUintVar(old(Left()))
      ensures error == (old(error) || |Left()| == |old(Left())|)
    {
      var v, end := ExtractUintVar(data, pos);
      CutGroups(data[pos..], limit - pos, 0, 5);
      assert data[pos..][..limit - pos] == Left();
      if end < 0 || end > limit {
        error := true;
        return 0;
      }
      assert Left()[end - pos..] == data[end..limit];
      value := v;
      pos := end;
    }

    /** parse_limit. */
    method Limit(length: nat)
      requires Valid()
      modifies this`limit, this`limits, this`error
      ensures Valid()
      ensures if pos + length <= old(limit) then limit == pos + length && limits == [old(limit)] + old(limits) && error == old(error)
              else limit == old(limit) && limits == old(limits) && error
    {
      if pos + length > limit {
        error := true;
      } else {
        limits := [limit] + limits;
        limit := pos + length;
      }
    }

    /** parse_pop_limit. */
    method PopLimit()
      requires Valid() && (limits != [] ==> forall i :: 0 <= i < |limits| ==> limits[0] <= limits[i])
      modifies this`limit, this`limits, this`error
      ensures Valid()
      ensures if old(limits) == [] then limit == old(limit) && limits == [] && error
              else limit == old(limits)[0] && limits == old(limits)[1..] && error == old(error)
    {
      if limits == [] {
        error := true;
      } else {
        limit := limits[0];
        limits := limits[1..];
      }
    }

    method OctetsLeft() returns (n: nat)
      requires Valid()
      ensures n == |Left()|
    {
      n := limit - pos;
    }

    /** parse_get_octets. */
    method GetOctets(length: nat) returns (octets: Option<string>)
      requires Valid()
      modifies this`pos, this`error
      ensures Valid()
      ensures if length <= |old(Left())| then octets == Some(old(Left())[..length]) && Left() == old(Left())[length..] && error == old(error)
              else octets == None && Left() == old(Left()) && error
    {
      if pos + length > limit {
        error := true;
        return None;
      }
      assert data[pos..limit][..length] == data[pos..pos + length];
      assert data[pos..limit][length..] == data[pos + length..limit];
      octets := Some(data[pos..pos + length]);
      pos := pos + length;
    }

    /** parse_skip_to_limit. */
    method SkipToLimit()
      requires Valid()
      modifies this`pos
      ensures Valid() && Left() == "" && pos == limit
    {
      pos := limit;
    }
  }

  /** octstr_extract_uintvar: the integer at `pos` and where it ends, or -1. */
  method ExtractUintVar(data: string, pos: nat) returns (value: nat, end: int)
    requires pos <= |data|
    ensures match ReadGroups(data[pos..], 0, 5)
            case None => end == -1
            case Some(Uint(v, rest)) => value == v && pos < end <= |data| && rest == data[end..]
  {
    value, end := 0, pos;
    for count := 0 to 5
      invariant pos <= end <= |data|
      invariant ReadGroups(data[pos..], 0, 5) == ReadGroups(data[end..], value, 5 - count)
    {
      if end == |data| {
        return value, -1;
      }
      var c := data[end] as int;
      assert data[end..][1..] == data[end + 1..];
      value := value * 128 + c % 128;
      end := end + 1;
      if c < 128 {
        return;
      }
    }
    end := -1;
  }

  /** Reading an integer from the front part of a string: the same one if it lies within, and none otherwise. */
  lemma {:induction false} CutGroups(s: string, k: nat, acc: nat, room: nat)
    requires k <= |s|
    ensures ReadGroups(s[..k], acc, room)
         == match ReadGroups(s, acc, room)
            case None => None
            case Some(Uint(v, rest)) => if |s| - |rest| <= k then Some(Uint(v, s[..k][|s| - |rest|..])) else None
    decreases room
  {
    if room > 0 && k > 0 && s[0] as int >= 128 {
      var c := s[0] as int;
      assert s[..k][1..] == s[1..][..k - 1];
      CutGroups(s[1..], k - 1, acc * 128 + c % 128, room - 1);
      var r := ReadGroups(s[1..], acc * 128 + c % 128, room - 1);
      if r.Some? && |s| - |r.value.left| <= k {
        assert s[..k][|s| - |r.value.left|..] == s[1..][..k - 1][|s| - 1 - |r.value.left|..];
      }
    }
  }

  /** An Octstr that is appended to. */
  class Octstr {
    var data: string

    constructor ()
      ensures data == ""
    {
      data := "";
    }

    method Append(s: string)
      modifies this
      ensures data == old(data) + s
    {
      data := data + s;
    }
  }
}
