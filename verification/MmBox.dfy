/**
  A user's message box on disk: data files and the index, under the operations that add, change and delete
  a message, each of which may be cut short after any of its writes. One operation works on a box at a
  time: the index file is locked by the protocol of the queue files.
 */
module MmBox {
  import opened Wrappers
  import opened Text
  import opened MmBoxIndex

  datatype Box = Box(files: map<string, string>, index: string)

  /** One write to the disk. */
  datatype Write = Put(df: string, data: string) | SetIndex(text: string) | Unlink(df: string)

  function Apply(b: Box, w: Write): Box {
    match w
    case Put(df, data) => b.(files := b.files[df := data])
    case SetIndex(text) => b.(index := text)
    case Unlink(df) => b.(files := b.files - {df})
  }

  function ApplyAll(b: Box, ws: seq<Write>): Box
    decreases |ws|
  {
    if ws == [] then b else ApplyAll(Apply(b, ws[0]), ws[1..])
  }

  datatype Op =
    | AddMsg(df: string, state: string, flags: seq<string>, data: string)
    | ModMsg(df: string, state: string, flags: seq<string>, data: string)
    | DelMsg(df: string)

  /** What an operation writes, in order. A new data file is created before it is filled; a change to a
      message that cannot be read writes nothing. */
  function Writes(b: Box, op: Op): seq<Write> {
    match op
    case AddMsg(df, state, flags, data) =>
      [Put(df, ""), Put(df, data), SetIndex(Rewrite(Add(Entry(df, state, |data|, flags)), b.index))]
    case ModMsg(df, state, flags, data) =>
      if df !in b.files || b.files[df] == "" then []
      else [Put(df, data), SetIndex(Rewrite(Mod(Entry(df, state, |data|, flags)), b.index))]
    case DelMsg(df) => [SetIndex(Rewrite(Del(df), b.index)), Unlink(df)]
  }

  /** An operation that gets as far as its first `cut` writes. */
  datatype Run = Run(op: Op, cut: nat)

  predicate Whole(b: Box, r: Run) {
    r.cut >= |Writes(b, r.op)|
  }

  function Step(b: Box, r: Run): Box {
    ApplyAll(b, if Whole(b, r) then Writes(b, r.op) else Writes(b, r.op)[..r.cut])
  }

  function After(b: Box, runs: seq<Run>): Box
    decreases |runs|
  {
    if runs == [] then b else After(Step(b, runs[0]), runs[1..])
  }

  /** What the code relies on: O_EXCL gives a new message a name that no file has, and names, states and
      flags are words that fit a line of the index. */
  predicate Possible(b: Box, op: Op) {
    match op
    case AddMsg(df, state, flags, data) => df !in b.files && GoodEntry(Entry(df, state, |data|, flags))
    case ModMsg(df, state, flags, data) => GoodEntry(Entry(df, state, |data|, flags))
    case DelMsg(_) => true
  }

  ghost predicate AllPossible(b: Box, runs: seq<Run>)
    decreases |runs|
  {
    runs != [] ==> Possible(b, runs[0].op) && AllPossible(Step(b, runs[0]), runs[1..])
  }

  // ---- what the index says ----

  predicate Listed(es: seq<Entry>, df: string) {
    exists i :: 0 <= i < |es| && es[i].df == df
  }

  ghost predicate Distinct(es: seq<Entry>) {
    forall i, j :: 0 <= i < j < |es| ==> es[i].df != es[j].df
  }

  /** The index lists `es`, each message once, and each has its data file. */
  ghost predicate Indexed(b: Box, es: seq<Entry>) {
    b.index == IndexText(es) && AllGood(es) && Distinct(es) && Stored(es, b.files)
  }

  ghost predicate Stored(es: seq<Entry>, files: map<string, string>) {
    forall i :: 0 <= i < |es| ==> es[i].df in files
  }

  /** The recorded size is the stored size. */
  predicate SizeRight(b: Box, e: Entry) {
    e.df in b.files && e.size == |b.files[e.df]|
  }

  ghost predicate SizesRight(b: Box, es: seq<Entry>) {
    forall i :: 0 <= i < |es| ==> SizeRight(b, es[i])
  }

  /** The list of messages after an operation that was not cut before its index was in place. */
  function Edited(b: Box, es: seq<Entry>, op: Op): seq<Entry> {
    match op
    case AddMsg(df, state, flags, data) => es + [Entry(df, state, |data|, flags)]
    case ModMsg(df, state, flags, data) =>
      if df !in b.files || b.files[df] == "" then es else EditEach(Mod(Entry(df, state, |data|, flags)), es)
    case DelMsg(df) => EditEach(Del(df), es)
  }

  /** The number of writes that take effect before the index is in place. */
  function BeforeIndex(op: Op): nat {
    match op
    case AddMsg(_, _, _, _) => 2
    case ModMsg(_, _, _, _) => 1
    case DelMsg(_) => 0
  }

  function Listing(b: Box, es: seq<Entry>, r: Run): seq<Entry> {
    if r.cut > BeforeIndex(r.op) then Edited(b, es, r.op) else es
  }

  // ---- lists of entries ----

  lemma {:induction false} EditKeepsOthers(cmd: Cmd, es: seq<Entry>)
    requires !Listed(es, cmd.Name())
    ensures EditEach(cmd, es) == es
  {
    if es != [] {
      assert es[0].df != cmd.Name();
      forall i | 0 <= i < |es| - 1 ensures es[1..][i].df != cmd.Name() {
        assert es[1..][i] == es[i + 1];
      }
      EditKeepsOthers(cmd, es[1..]);
      assert [es[0]] + es[1..] == es;
    }
  }

  /** Every entry after an edit is an old one under another name, or the new one. */
  lemma {:induction false} EditedFrom(cmd: Cmd, es: seq<Entry>, i: nat) returns (j: nat)
    requires i < |EditEach(cmd, es)|
    ensures i <= j < |es|
    ensures if es[j].df == cmd.Name() then cmd.Mod? && EditEach(cmd, es)[i] == cmd.e else EditEach(cmd, es)[i] == es[j]
  {
    var first: seq<Entry> := if es[0].df != cmd.Name() then [es[0]] else if cmd.Mod? then [cmd.e] else [];
    if i < |first| {
      j := 0;
    } else {
      var k := EditedFrom(cmd, es[1..], i - |first|);
      j := k + 1;
    }
  }

  lemma {:induction false} EditKeepsGood(cmd: Cmd, es: seq<Entry>)
    requires AllGood(es) && (cmd.Mod? ==> GoodEntry(cmd.e))
    ensures AllGood(EditEach(cmd, es))
  {
    if es != [] {
      EditKeepsGood(cmd, es[1..]);
      var first: seq<Entry> := if es[0].df != cmd.Name() then [es[0]] else if cmd.Mod? then [cmd.e] else [];
      if first != [] {
        assert (first + EditEach(cmd, es[1..]))[1..] == EditEach(cmd, es[1..]);
      } else {
        assert first + EditEach(cmd, es[1..]) == EditEach(cmd, es[1..]);
      }
    }
  }

  lemma {:induction false} EditKeepsDistinct(cmd: Cmd, es: seq<Entry>)
    requires Distinct(es)
    ensures Distinct(EditEach(cmd, es))
    ensures cmd.Mod? ==> |EditEach(cmd, es)| == |es|
  {
    if es != [] {
      assert Distinct(es[1..]) by {
        forall i, j | 0 <= i < j < |es| - 1 ensures es[1..][i].df != es[1..][j].df {
          assert es[1..][i] == es[i + 1] && es[1..][j] == es[j + 1];
        }
      }
      EditKeepsDistinct(cmd, es[1..]);
      var rest := EditEach(cmd, es[1..]);
      forall j | 0 <= j < |rest| ensures rest[j].df != es[0].df {
        var k := EditedFrom(cmd, es[1..], j);
        assert es[1..][k] == es[k + 1];
      }
    }
  }

  lemma {:induction false} GoodAppend(a: seq<Entry>, e: Entry)
    requires AllGood(a) && GoodEntry(e)
    ensures AllGood(a + [e])
  {
    if a == [] {
      assert a + [e] == [e] && [e][1..] == [];
    } else {
      assert (a + [e])[1..] == a[1..] + [e];
      GoodAppend(a[1..], e);
    }
  }

  // ---- one operation, cut anywhere ----

  lemma ApplyOne(b: Box, u: Write)
    ensures ApplyAll(b, [u]) == Apply(b, u)
  {
    assert [u][1..] == [];
  }

  lemma ApplyTwo(b: Box, u: Write, v: Write)
    ensures ApplyAll(b, [u, v]) == Apply(Apply(b, u), v)
  {
    assert [u, v][1..] == [v];
    ApplyOne(Apply(b, u), v);
  }

  lemma ApplyThree(b: Box, u: Write, v: Write, w: Write)
    ensures ApplyAll(b, [u, v, w]) == Apply(Apply(Apply(b, u), v), w)
  {
    assert [u, v, w][1..] == [v, w];
    ApplyTwo(Apply(b, u), v, w);
  }

  lemma ApplyFew(b: Box, ws: seq<Write>)
    requires 2 <= |ws| <= 3
    ensures ApplyAll(b, ws[..0]) == b && ApplyAll(b, ws[..1]) == Apply(b, ws[0])
    ensures ApplyAll(b, ws[..2]) == Apply(Apply(b, ws[0]), ws[1])
    ensures ApplyAll(b, ws) == if |ws| == 2 then Apply(Apply(b, ws[0]), ws[1]) else Apply(Apply(Apply(b, ws[0]), ws[1]), ws[2])
  {
    assert ws[..1] == [ws[0]] && ws[..2] == [ws[0], ws[1]];
    ApplyOne(b, ws[0]);
    ApplyTwo(b, ws[0], ws[1]);
    if |ws| == 3 {
      assert ws == [ws[0], ws[1], ws[2]];
      ApplyThree(b, ws[0], ws[1], ws[2]);
    } else {
      assert ws == ws[..2];
    }
  }

  /** The box after an addition that got as far as `r.cut` writes. */
  lemma AddIs(b: Box, r: Run)
    requires r.op.AddMsg?
    ensures var k, t, df := r.cut, Step(b, r), r.op.df;
            && t.index == (if k >= 3 then Rewrite(Add(Entry(df, r.op.state, |r.op.data|, r.op.flags)), b.index) else b.index)
            && t.files == (if k == 0 then b.files else b.files[df := if k == 1 then "" else r.op.data])
  {
    ApplyFew(b, Writes(b, r.op));
  }

  lemma ModIs(b: Box, r: Run)
    requires r.op.ModMsg?
    ensures var k, t, df := r.cut, Step(b, r), r.op.df;
            if df !in b.files || b.files[df] == "" then t == b
            else
              && t.index == (if k >= 2 then Rewrite(Mod(Entry(df, r.op.state, |r.op.data|, r.op.flags)), b.index) else b.index)
              && t.files == (if k == 0 then b.files else b.files[df := r.op.data])
  {
    if r.op.df !in b.files || b.files[r.op.df] == "" {
      assert Writes(b, r.op) == [] && Writes(b, r.op)[..0] == [];
    } else {
      ApplyFew(b, Writes(b, r.op));
    }
  }

  lemma DelIs(b: Box, r: Run)
    requires r.op.DelMsg?
    ensures var k, t, df := r.cut, Step(b, r), r.op.df;
            && t.index == (if k >= 1 then Rewrite(Del(df), b.index) else b.index)
            && t.files == (if k >= 2 then b.files - {df} else b.files)
  {
    ApplyFew(b, Writes(b, r.op));
  }

  /** The box after an operation that got as far as `r.cut` writes. */
  lemma StepIs(b: Box, r: Run)
    ensures var k, t := r.cut, Step(b, r);
            match r.op
            case AddMsg(df, state, flags, data) =>
              && t.index == (if k >= 3 then Rewrite(Add(Entry(df, state, |data|, flags)), b.index) else b.index)
              && t.files == (if k == 0 then b.files else b.files[df := if k == 1 then "" else data])
            case ModMsg(df, state, flags, data) =>
              if df !in b.files || b.files[df] == "" then t == b
              else
                && t.index == (if k >= 2 then Rewrite(Mod(Entry(df, state, |data|, flags)), b.index) else b.index)
                && t.files == (if k == 0 then b.files else b.files[df := data])
            case DelMsg(df) =>
              && t.index == (if k >= 1 then Rewrite(Del(df), b.index) else b.index)
              && t.files == (if k >= 2 then b.files - {df} else b.files)
  {
    match r.op
    case AddMsg(_, _, _, _) => AddIs(b, r);
    case ModMsg(_, _, _, _) => ModIs(b, r);
    case DelMsg(_) => DelIs(b, r);
  }

  /** A fresh file name is not in the index, so adding a message only appends its line. */
  lemma AddAppends(b: Box, es: seq<Entry>, e: Entry)
    requires Indexed(b, es) && e.df !in b.files
    ensures !Listed(es, e.df)
    ensures Rewrite(Add(e), b.index) == b.index + LineOf(e) == IndexText(es + [e])
  {
    assert !Listed(es, e.df);
    RewriteEdits(Add(e), es);
    EditKeepsOthers(Add(e), es);
    IndexAppend(es, [e]);
    OneEntry(e);
  }

  lemma AddKeepsIndexed(b: Box, es: seq<Entry>, r: Run)
    requires Indexed(b, es) && r.op.AddMsg? && Possible(b, r.op)
    ensures Indexed(Step(b, r), Listing(b, es, r))
  {
    var e := Entry(r.op.df, r.op.state, |r.op.data|, r.op.flags);
    AddIs(b, r);
    AddAppends(b, es, e);
    GoodAppend(es, e);
  }

  /** The index text and the list after an edit in place. */
  lemma EditInPlace(cmd: Cmd, es: seq<Entry>)
    requires AllGood(es) && Distinct(es) && !cmd.Add? && (cmd.Mod? ==> GoodEntry(cmd.e))
    ensures var fs := EditEach(cmd, es); Rewrite(cmd, IndexText(es)) == IndexText(fs) && AllGood(fs) && Distinct(fs)
  {
    RewriteEdits(cmd, es);
    assert EditEach(cmd, es) + [] == EditEach(cmd, es);
    EditKeepsGood(cmd, es);
    EditKeepsDistinct(cmd, es);
  }

  lemma ModKeepsIndexed(b: Box, es: seq<Entry>, r: Run)
    requires Indexed(b, es) && r.op.ModMsg? && Possible(b, r.op)
    ensures Indexed(Step(b, r), Listing(b, es, r))
  {
    ModIs(b, r);
    if r.op.df in b.files && b.files[r.op.df] != "" {
      EditedInPlace(b, es, Step(b, r), Mod(Entry(r.op.df, r.op.state, |r.op.data|, r.op.flags)), r.cut >= 2, if r.cut == 0 then b.files else b.files[r.op.df := r.op.data]);
    }
  }

  /** A box whose index is the old one, or edited in place, and that has the files either needs. */
  lemma EditedInPlace(b: Box, es: seq<Entry>, t: Box, cmd: Cmd, edited: bool, files: map<string, string>)
    requires Indexed(b, es) && !cmd.Add? && (cmd.Mod? ==> GoodEntry(cmd.e))
    requires t == Box(files, if edited then Rewrite(cmd, b.index) else b.index)
    requires b.files.Keys <= files.Keys + (if cmd.Del? && edited then {cmd.df} else {})
    requires cmd.Mod? && edited ==> cmd.e.df in files
    ensures Indexed(t, if edited then EditEach(cmd, es) else es)
  {
    if edited {
      EditInPlace(cmd, es);
      EditStored(cmd, es, b.files, files);
    } else {
      assert Stored(es, files);
    }
  }

  /** The messages listed after an edit have their data files. */
  lemma EditStored(cmd: Cmd, es: seq<Entry>, files: map<string, string>, files': map<string, string>)
    requires Stored(es, files) && !cmd.Add? && (cmd.Mod? ==> cmd.e.df in files')
    requires files.Keys <= files'.Keys + if cmd.Del? then {cmd.df} else {}
    ensures Stored(EditEach(cmd, es), files')
  {
    var fs := EditEach(cmd, es);
    forall i | 0 <= i < |fs| ensures fs[i].df in files' {
      var j := EditedFrom(cmd, es, i);
      assert es[j].df in files.Keys;
    }
  }

  lemma DelKeepsIndexed(b: Box, es: seq<Entry>, r: Run)
    requires Indexed(b, es) && r.op.DelMsg?
    ensures Indexed(Step(b, r), Listing(b, es, r))
  {
    DelIs(b, r);
    EditedInPlace(b, es, Step(b, r), Del(r.op.df), r.cut >= 1, if r.cut >= 2 then b.files - {r.op.df} else b.files);
  }

  /** Whatever write an operation stops after, the index lists each message once, and every message listed
      has its data file: the list is the old one, or the new one once the index is in place. */
  lemma CutKeepsIndexed(b: Box, es: seq<Entry>, r: Run)
    requires Indexed(b, es) && Possible(b, r.op)
    ensures Indexed(Step(b, r), Listing(b, es, r))
  {
    match r.op
    case AddMsg(_, _, _, _) => AddKeepsIndexed(b, es, r);
    case ModMsg(_, _, _, _) => ModKeepsIndexed(b, es, r);
    case DelMsg(_) => DelKeepsIndexed(b, es, r);
  }

  // ---- sizes ----

  /** New data is in place, but the index still has the size of the old. */
  predicate Torn(b: Box, es: seq<Entry>, r: Run) {
    && r.op.ModMsg? && r.cut == 1 && r.op.df in b.files && b.files[r.op.df] != ""
    && Listed(es, r.op.df) && |r.op.data| != |b.files[r.op.df]|
  }

  lemma EditedSizes(b: Box, es: seq<Entry>, r: Run)
    requires Indexed(b, es) && Possible(b, r.op) && SizesRight(b, es) && r.cut > BeforeIndex(r.op)
    ensures SizesRight(Step(b, r), Listing(b, es, r))
  {
    StepIs(b, r);
    match r.op
    case AddMsg(df, _, _, _) =>
      assert !Listed(es, df);
    case ModMsg(df, state, flags, data) =>
      if df in b.files && b.files[df] != "" {
        var cmd := Mod(Entry(df, state, |data|, flags));
        forall i | 0 <= i < |EditEach(cmd, es)| ensures SizeRight(Step(b, r), EditEach(cmd, es)[i]) {
          var j := EditedFrom(cmd, es, i);
          assert SizeRight(b, es[j]);
        }
      }
    case DelMsg(df) =>
      var cmd := Del(df);
      forall i | 0 <= i < |EditEach(cmd, es)| ensures SizeRight(Step(b, r), EditEach(cmd, es)[i]) {
        var j := EditedFrom(cmd, es, i);
        assert SizeRight(b, es[j]);
      }
  }

  /** Recorded sizes stay right, unless a change was cut between the new data and the new index. */
  lemma SizesStayRightIff(b: Box, es: seq<Entry>, r: Run)
    requires Indexed(b, es) && Possible(b, r.op) && SizesRight(b, es)
    ensures SizesRight(Step(b, r), Listing(b, es, r)) <==> !Torn(b, es, r)
  {
    StepIs(b, r);
    var t := Step(b, r);
    if r.cut > BeforeIndex(r.op) {
      EditedSizes(b, es, r);
    } else if r.op.AddMsg? {
      assert !Listed(es, r.op.df);
      assert forall i :: 0 <= i < |es| ==> SizeRight(b, es[i]);
    } else if r.op.ModMsg? {
      assert forall i :: 0 <= i < |es| ==> SizeRight(b, es[i]);
      if Torn(b, es, r) {
        var i :| 0 <= i < |es| && es[i].df == r.op.df;
        assert !SizeRight(t, es[i]);
      }
    } else {
      assert t == b;
    }
  }

  // ---- any sequence of operations ----

  function ListingAfter(b: Box, es: seq<Entry>, runs: seq<Run>): seq<Entry>
    decreases |runs|
  {
    if runs == [] then es else ListingAfter(Step(b, runs[0]), Listing(b, es, runs[0]), runs[1..])
  }

  ghost predicate NoneTorn(b: Box, es: seq<Entry>, runs: seq<Run>)
    decreases |runs|
  {
    runs != [] ==> !Torn(b, es, runs[0]) && NoneTorn(Step(b, runs[0]), Listing(b, es, runs[0]), runs[1..])
  }

  /** Main result: after any operations, each complete or cut anywhere, the index is a well-formed list of
      distinct messages that all have their data files; and if none was torn, with the sizes they have. */
  lemma {:induction false} BoxStaysIndexed(b: Box, es: seq<Entry>, runs: seq<Run>)
    requires Indexed(b, es) && AllPossible(b, runs)
    ensures Indexed(After(b, runs), ListingAfter(b, es, runs))
    ensures SizesRight(b, es) && NoneTorn(b, es, runs) ==> SizesRight(After(b, runs), ListingAfter(b, es, runs))
    decreases |runs|
  {
    if runs != [] {
      CutKeepsIndexed(b, es, runs[0]);
      if SizesRight(b, es) {
        SizesStayRightIff(b, es, runs[0]);
      }
      BoxStaysIndexed(Step(b, runs[0]), Listing(b, es, runs[0]), runs[1..]);
    }
  }

  // ---- complete operations ----

  /** Nothing is stored that is not listed. */
  ghost predicate Exact(b: Box, es: seq<Entry>) {
    Indexed(b, es) && SizesRight(b, es) && forall df :: df in b.files ==> Listed(es, df)
  }

  lemma {:induction false} EditKeepsListed(cmd: Cmd, es: seq<Entry>, df: string)
    requires Listed(es, df) && (df != cmd.Name() || cmd.Mod?)
    ensures Listed(EditEach(cmd, es), df)
  {
    var i :| 0 <= i < |es| && es[i].df == df;
    var first: seq<Entry> := if es[0].df != cmd.Name() then [es[0]] else if cmd.Mod? then [cmd.e] else [];
    var rest := EditEach(cmd, es[1..]);
    if i == 0 {
      assert (first + rest)[0].df == df;
    } else {
      assert es[1..][i - 1] == es[i];
      EditKeepsListed(cmd, es[1..], df);
      var j :| 0 <= j < |rest| && rest[j].df == df;
      assert (first + rest)[|first| + j] == rest[j];
    }
  }

  /** Complete operations keep index and files in exact agreement, message for message. */
  lemma WholeKeepsExact(b: Box, es: seq<Entry>, r: Run)
    requires Exact(b, es) && Possible(b, r.op) && r.cut >= 3
    ensures Exact(Step(b, r), Edited(b, es, r.op))
  {
    CutKeepsIndexed(b, es, r);
    EditedSizes(b, es, r);
    StepIs(b, r);
    var t, fs := Step(b, r), Edited(b, es, r.op);
    forall df | df in t.files ensures Listed(fs, df) {
      match r.op
      case AddMsg(d, _, _, _) =>
        if df == d {
          assert fs[|es|].df == d;
        } else {
          var i :| 0 <= i < |es| && es[i].df == df;
          assert fs[i] == es[i];
        }
      case ModMsg(d, state, flags, data) =>
        if d in b.files && b.files[d] != "" {
          EditKeepsListed(Mod(Entry(d, state, |data|, flags)), es, df);
        }
      case DelMsg(d) =>
        EditKeepsListed(Del(d), es, df);
    }
  }
}
