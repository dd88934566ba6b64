/** The loops of the message box: rewriting the index, counting from it, and merging flag lists. */
module MmBoxIo {
  import opened Wrappers
  import opened Text
  import opened OctetStreams
  import opened MmBoxIndex
  import opened MmBox

  /** The line-by-line copy in update_mmbox_index, from the old index to the temporary file. */
  method UpdateIndex(cmd: Cmd, text: string, temp: Octstr)
    modifies temp
    ensures temp.data == old(temp.data) + Rewrite(cmd, text)
  {
    var left := text;
    ghost var done := "";
    while left != ""
      invariant temp.data == old(temp.data) + done && done + EditLines(cmd, left) == EditLines(cmd, text)
      decreases |left|
    {
      var line := NextChunk(left);
      var outs := EditLine(cmd, line);
      temp.Append(outs);
      Associate(old(temp.data), done, outs, EditLines(cmd, left[|line|..]));
      done := done + outs;
      left := left[|line|..];
    }
    assert done + "" == done;
    if cmd.Add? {
      temp.Append(LineOf(cmd.e));
      Associate(old(temp.data), done, LineOf(cmd.e), "");
    } else {
      assert EditLines(cmd, text) + "" == EditLines(cmd, text);
    }
  }

  lemma Associate(a: string, b: string, c: string, d: string)
    ensures a + b + c == a + (b + c) && b + c + d == b + (c + d)
  {
  }

  // ---- counting ----

  datatype Totals = Totals(messages: nat, octets: int)

  function LineSize(line: string): int {
    match ScanLine(line)
    case Unreadable => 0
    case Scanned(_, _, size, _) => size
  }

  function CountLines(text: string): Totals
    decreases |text|
  {
    if text == "" then Totals(0, 0)
    else
      var line := NextChunk(text);
      var more := CountLines(text[|line|..]);
      Totals(1 + more.messages, LineSize(line) + more.octets)
  }

  /** mms_mmbox_count. */
  method Count(text: string) returns (messages: nat, octets: int)
    ensures Totals(messages, octets) == CountLines(text)
  {
    messages, octets := 0, 0;
    var left := text;
    while left != ""
      invariant var more := CountLines(left); CountLines(text) == Totals(messages + more.messages, octets + more.octets)
      decreases |left|
    {
      var line := NextChunk(left);
      messages := messages + 1;
      octets := octets + LineSize(line);
      left := left[|line|..];
    }
  }

  function StoredOctets(b: Box, es: seq<Entry>): int {
    if es == [] then 0 else (if es[0].df in b.files then |b.files[es[0].df]| else 0) + StoredOctets(b, es[1..])
  }

  /** What is counted from the index is what is stored: as many messages, and their lengths together. */
  lemma {:induction false} CountIsStored(b: Box, es: seq<Entry>)
    requires AllGood(es) && SizesRight(b, es)
    ensures CountLines(IndexText(es)) == Totals(|es|, StoredOctets(b, es))
  {
    if es != [] {
      ChunkIsLine(es[0], IndexText(es[1..]));
      LineScans(es[0]);
      assert SizeRight(b, es[0]);
      forall i | 0 <= i < |es| - 1 ensures SizeRight(b, es[1..][i]) {
        assert es[1..][i] == es[i + 1];
      }
      CountIsStored(b, es[1..]);
    }
  }

  // ---- flags ----

  predicate IsSign(c: char) {
    c == '+' || c == '-' || c == '/'
  }

  function FlagName(x: string): string {
    if x != "" && IsSign(x[0]) then x[1..] else x
  }

  /** A command without a sign sets its flag. */
  predicate Sets(x: string) {
    !(x != "" && x[0] == '-')
  }

  function Names(l: seq<string>): seq<string> {
    if l == [] then [] else [FlagName(l[0])] + Names(l[1..])
  }

  function Without(l: seq<string>, f: string): seq<string> {
    if l == [] then [] else (if l[0] == f then [] else [l[0]]) + Without(l[1..], f)
  }

  function Command(l: seq<string>, x: string): seq<string> {
    Without(l, FlagName(x)) + if Sets(x) then [FlagName(x)] else []
  }

  function Commands(l: seq<string>, cmds: seq<string>): seq<string> {
    if cmds == [] then l else Command(Commands(l, cmds[..|cmds| - 1]), cmds[|cmds| - 1])
  }

  /** make_mm_flags. */
  function MakeFlags(oflags: seq<string>, cmds: seq<string>): seq<string> {
    Commands(Names(oflags), cmds)
  }

  /** Deleting every copy of a flag, in place: the index stays where it is when an item goes. */
  method DeleteAll(l: seq<string>, f: string) returns (r: seq<string>)
    ensures r == Without(l, f)
  {
    r := l;
    var j := 0;
    while j < |r|
      invariant 0 <= j <= |r| && r[..j] + Without(r[j..], f) == Without(l, f)
      decreases |r| - j
    {
      ghost var rest := r[j + 1..];
      assert r[j..] == [r[j]] + rest && r[j..][1..] == rest;
      if r[j] == f {
        assert [] + Without(rest, f) == Without(rest, f);
        ghost var front := r[..j];
        r := r[..j] + r[j + 1..];
        assert r[..j] == front && r[j..] == rest;
      } else {
        assert r[..j] + ([r[j]] + Without(rest, f)) == r[..j + 1] + Without(rest, f);
        j := j + 1;
      }
    }
    assert r[..j] == r && r[j..] == [] && r + [] == r;
  }

  method MergeFlags(oflags: seq<string>, cmds: seq<string>) returns (l: seq<string>)
    ensures l == MakeFlags(oflags, cmds)
  {
    l := [];
    for i := 0 to |oflags|
      invariant l == Names(oflags[..i])
    {
      assert oflags[..i + 1] == oflags[..i] + [oflags[i]];
      OneNameMore(oflags[..i], oflags[i]);
      l := l + [FlagName(oflags[i])];
    }
    assert oflags[..|oflags|] == oflags;
    for i := 0 to |cmds|
      invariant l == Commands(Names(oflags), cmds[..i])
    {
      var x := cmds[i];
      assert cmds[..i + 1][..i] == cmds[..i];
      l := DeleteAll(l, FlagName(x));
      if Sets(x) {
        l := l + [FlagName(x)];
      }
      assert Without(Commands(Names(oflags), cmds[..i]), FlagName(x)) + [] == Without(Commands(Names(oflags), cmds[..i]), FlagName(x));
    }
    assert cmds[..|cmds|] == cmds;
  }

  lemma {:induction false} OneNameMore(l: seq<string>, x: string)
    ensures Names(l + [x]) == Names(l) + [FlagName(x)]
  {
    if l == [] {
      assert l + [x] == [x] && [x][1..] == [];
    } else {
      assert (l + [x])[1..] == l[1..] + [x];
      OneNameMore(l[1..], x);
    }
  }

  lemma {:induction false} WithoutKeeps(l: seq<string>, f: string, g: string)
    ensures g in Without(l, f) <==> g in l && g != f
  {
    if l != [] {
      WithoutKeeps(l[1..], f, g);
    }
  }

  /** The last command about flag `f` among `cmds`, or -1. */
  function LastAbout(cmds: seq<string>, f: string): (i: int)
    ensures -1 <= i < |cmds|
  {
    if cmds == [] then -1
    else if FlagName(cmds[|cmds| - 1]) == f then |cmds| - 1
    else LastAbout(cmds[..|cmds| - 1], f)
  }

  /** A flag is set in the end exactly when the last command about it sets it or, if there is none, when it was set before. */
  lemma {:induction false} FlagSetIff(l: seq<string>, cmds: seq<string>, f: string)
    ensures var i := LastAbout(cmds, f); f in MakeFlags(l, cmds) <==> if i < 0 then f in Names(l) else Sets(cmds[i])
    decreases |cmds|
  {
    if cmds != [] {
      var n := |cmds| - 1;
      FlagSetIff(l, cmds[..n], f);
      WithoutKeeps(Commands(Names(l), cmds[..n]), FlagName(cmds[n]), f);
    }
  }
}
