/**
  The index file of a message box: one line for each message, with its data file, state, size and flags,
  rewritten line by line on every change.
 */
module MmBoxIndex {
  import opened Wrappers
  import opened Text

  datatype Entry = Entry(df: string, state: string, size: nat, flags: seq<string>)

  datatype Cmd = Add(e: Entry) | Mod(e: Entry) | Del(df: string)
  {
    function Name(): string {
      match this
      case Add(e) => e.df
      case Mod(e) => e.df
      case Del(df) => df
    }
  }

  /** linearise_string_list with a space between. */
  function Join(flags: seq<string>): string {
    if flags == [] then "" else if |flags| == 1 then flags[0] else flags[0] + " " + Join(flags[1..])
  }

  function LineOf(e: Entry): string {
    e.df + (" " + (e.state + (" " + (Digits(e.size) + (" " + (Join(e.flags) + "\n"))))))
  }

  function IndexText(es: seq<Entry>): string {
    if es == [] then "" else LineOf(es[0]) + IndexText(es[1..])
  }

  /** The buffer that fgets reads a line into. */
  const LINE_SIZE: nat := 1024

  /** fgets: the next line with its end, or as much of it as the buffer holds. */
  function NextChunk(text: string): (line: string)
    requires text != ""
    ensures 0 < |line| <= |text| && line == text[..|line|]
  {
    var i := IndexOf(text, '\n');
    if 0 <= i < LINE_SIZE - 1 then text[..i + 1]
    else if |text| < LINE_SIZE then text
    else text[..LINE_SIZE - 1]
  }

  // ---- scanning a line ----

  /** The word at the front, up to a blank. */
  function Word(s: string): (w: string)
    ensures |w| <= |s|
  {
    if s == "" || IsSpace(s[0]) then "" else [s[0]] + Word(s[1..])
  }

  /** What sscanf with "%s %s %d" finds, and the rest of the line. */
  datatype Scanned = Scanned(df: string, state: string, size: int, rest: string) | Unreadable

  function ScanLine(line: string): Scanned {
    var a := StripLeft(line);
    var df := Word(a);
    var b := StripLeft(a[|df|..]);
    var state := Word(b);
    match ScanLong(b[|state|..])
    case NoScan => Unreadable
    case Scan(size, rest) => if df == "" || state == "" then Unreadable else Scanned(df, state, size, rest)
  }

  /** A line copied out: blanks before the flags and the end of the line are put back in one form. */
  function CopyOut(df: string, state: string, size: Long, rest: string): string {
    var p := StripLeft(rest);
    df + (" " + (state + (" " + (PrintLong(size) + (" " + (p + if '\n' in p then "" else "\n"))))))
  }

  /** What one line of the old index becomes. Lines that this program did not write are not modelled. */
  function EditLine(cmd: Cmd, line: string): string {
    match ScanLine(line)
    case Unreadable => ""
    case Scanned(df, state, size, rest) =>
      if df == cmd.Name() then (if cmd.Mod? then LineOf(cmd.e) else "")
      else CopyOut(df, state, if IsLong(size) then size else 0, rest)
  }

  function EditLines(cmd: Cmd, text: string): string
    decreases |text|
  {
    if text == "" then ""
    else
      var line := NextChunk(text);
      EditLine(cmd, line) + EditLines(cmd, text[|line|..])
  }

  /** update_mmbox_index: the new index. */
  function Rewrite(cmd: Cmd, text: string): string {
    EditLines(cmd, text) + if cmd.Add? then LineOf(cmd.e) else ""
  }

  // ---- the same on entries ----

  function EditEach(cmd: Cmd, es: seq<Entry>): seq<Entry> {
    if es == [] then []
    else (if es[0].df != cmd.Name() then [es[0]] else if cmd.Mod? then [cmd.e] else []) + EditEach(cmd, es[1..])
  }

  function Edit(cmd: Cmd, es: seq<Entry>): seq<Entry> {
    EditEach(cmd, es) + if cmd.Add? then [cmd.e] else []
  }

  predicate IsWord(s: string) {
    s != "" && forall i :: 0 <= i < |s| ==> !IsSpace(s[i])
  }

  predicate AllWords(flags: seq<string>) {
    flags != [] ==> IsWord(flags[0]) && |flags[0]| < 128 && AllWords(flags[1..])
  }

  /** Names, states and flags are single words; name, state and size fit the variables they are scanned
      into, and the line fits the buffer. */
  predicate GoodEntry(e: Entry) {
    && IsWord(e.df) && |e.df| < 128
    && IsWord(e.state) && |e.state| < 32
    && e.size < 0x8000_0000
    && AllWords(e.flags) && |LineOf(e)| < LINE_SIZE
  }

  predicate AllGood(es: seq<Entry>) {
    es != [] ==> GoodEntry(es[0]) && AllGood(es[1..])
  }

  // ---- reading back what was written ----

  lemma {:induction false} WordInFront(w: string, rest: string)
    requires forall i :: 0 <= i < |w| ==> !IsSpace(w[i])
    requires rest == "" || IsSpace(rest[0])
    ensures Word(w + rest) == w && (w + rest)[|w|..] == rest
  {
    if w == "" {
      assert w + rest == rest;
    } else {
      assert (w + rest)[1..] == w[1..] + rest;
      WordInFront(w[1..], rest);
    }
  }

  lemma BlankInFront(rest: string)
    requires rest == "" || !IsSpace(rest[0])
    ensures StripLeft(" " + rest) == rest
  {
    assert (" " + rest)[1..] == rest;
  }

  lemma {:induction false} JoinIsOneLine(flags: seq<string>)
    requires AllWords(flags)
    ensures flags == [] <==> Join(flags) == ""
    ensures flags != [] ==> !IsSpace(Join(flags)[0])
    ensures '\n' !in Join(flags)
  {
    if |flags| > 1 {
      JoinIsOneLine(flags[1..]);
    }
  }

  lemma SizeInFront(n: nat, rest: string)
    requires n <= LONG_MAX && (rest == "" || !IsDigit(rest[0]))
    ensures ScanLong(" " + (Digits(n) + rest)) == Scan(n, rest)
  {
    DigitsAreDigits(n);
    var d := Digits(n) + rest;
    assert d[0] == Digits(n)[0];
    BlankInFront(d);
    ScanDigits(n, rest);
  }

  /** A line that was written is scanned into its entry. */
  lemma LineScans(e: Entry)
    requires GoodEntry(e)
    ensures ScanLine(LineOf(e)) == Scanned(e.df, e.state, e.size, " " + (Join(e.flags) + "\n"))
  {
    var tail := " " + (Join(e.flags) + "\n");
    var number := " " + (Digits(e.size) + tail);
    var a := " " + (e.state + number);
    WordInFront(e.df, a);
    assert StripLeft(LineOf(e)) == LineOf(e);
    BlankInFront(e.state + number);
    WordInFront(e.state, number);
    SizeInFront(e.size, tail);
  }

  /** Copying a line out changes nothing. */
  lemma LineCopies(e: Entry)
    requires GoodEntry(e)
    ensures CopyOut(e.df, e.state, e.size, " " + (Join(e.flags) + "\n")) == LineOf(e)
  {
    JoinIsOneLine(e.flags);
    var p := Join(e.flags) + "\n";
    if e.flags == [] {
      assert p == "\n" && (" " + p)[1..] == p && p[1..] == "";
      assert StripLeft(p) == "" && StripLeft(" " + p) == "";
    } else {
      BlankInFront(p);
      assert p[|p| - 1] == '\n';
      assert p + "" == p;
    }
  }

  lemma NoNewlineBefore(e: Entry)
    requires GoodEntry(e)
    ensures '\n' !in LineOf(e)[..|LineOf(e)| - 1] && LineOf(e)[|LineOf(e)| - 1] == '\n'
  {
    JoinIsOneLine(e.flags);
    DigitsAreDigits(e.size);
    var front := e.df + (" " + (e.state + (" " + (Digits(e.size) + (" " + Join(e.flags))))));
    assert LineOf(e) == front + "\n";
    assert LineOf(e)[..|LineOf(e)| - 1] == front;
    assert '\n' !in e.df && '\n' !in e.state && '\n' !in Digits(e.size);
  }

  lemma ChunkIsLine(e: Entry, rest: string)
    requires GoodEntry(e)
    ensures LineOf(e) + rest != "" && NextChunk(LineOf(e) + rest) == LineOf(e) && (LineOf(e) + rest)[|LineOf(e)|..] == rest
  {
    NoNewlineBefore(e);
    var front := LineOf(e)[..|LineOf(e)| - 1];
    assert LineOf(e) + rest == front + ['\n'] + rest;
    IndexOfPrefix(front, '\n', rest);
  }

  lemma EditedLine(cmd: Cmd, e: Entry)
    requires GoodEntry(e)
    ensures EditLine(cmd, LineOf(e)) == if e.df != cmd.Name() then LineOf(e) else if cmd.Mod? then LineOf(cmd.e) else ""
  {
    LineScans(e);
    LineCopies(e);
  }

  lemma {:induction false} IndexAppend(a: seq<Entry>, b: seq<Entry>)
    ensures IndexText(a + b) == IndexText(a) + IndexText(b)
  {
    if a == [] {
      assert a + b == b && IndexText(a) + IndexText(b) == IndexText(b);
    } else {
      assert (a + b)[1..] == a[1..] + b;
      IndexAppend(a[1..], b);
    }
  }

  lemma OneEntry(e: Entry)
    ensures IndexText([e]) == LineOf(e)
  {
    assert [e][1..] == [] && LineOf(e) + "" == LineOf(e);
  }

  lemma {:induction false} EditsAgree(cmd: Cmd, es: seq<Entry>)
    requires AllGood(es)
    ensures EditLines(cmd, IndexText(es)) == IndexText(EditEach(cmd, es))
  {
    if es != [] {
      var e, more := es[0], EditEach(cmd, es[1..]);
      ChunkIsLine(e, IndexText(es[1..]));
      EditedLine(cmd, e);
      EditsAgree(cmd, es[1..]);
      var first := if e.df != cmd.Name() then [e] else if cmd.Mod? then [cmd.e] else [];
      IndexAppend(first, more);
      if first != [] {
        OneEntry(first[0]);
      }
    }
  }

  /** Main result about the index: rewriting the file line by line edits the list of entries. */
  lemma RewriteEdits(cmd: Cmd, es: seq<Entry>)
    requires AllGood(es)
    ensures Rewrite(cmd, IndexText(es)) == IndexText(Edit(cmd, es))
  {
    EditsAgree(cmd, es);
    IndexAppend(EditEach(cmd, es), if cmd.Add? then [cmd.e] else []);
    if cmd.Add? {
      OneEntry(cmd.e);
    }
  }

  // ---- reading the whole index ----

  /** parse_string_list: the words of a text. */
  function Words(s: string): seq<string>
    decreases |s|
  {
    var t := StripLeft(s);
    StripLeftShorter(s);
    if t == "" then [] else [Word(t)] + Words(t[|Word(t)|..])
  }

  lemma {:induction false} StripLeftShorter(s: string)
    ensures |StripLeft(s)| <= |s| && (StripLeft(s) != "" ==> !IsSpace(StripLeft(s)[0]) && Word(StripLeft(s)) != "")
  {
    if s != "" && IsSpace(s[0]) {
      StripLeftShorter(s[1..]);
    }
  }

  /** The entry on a line, if it can be read. */
  function ReadLine(line: string): Option<Entry> {
    match ScanLine(line)
    case Unreadable => None
    case Scanned(df, state, size, rest) => if size < 0 then None else Some(Entry(df, state, size, Words(rest)))
  }

  function Before(e: Option<Entry>, more: Option<seq<Entry>>): Option<seq<Entry>> {
    if e == None || more == None then None else Some([e.value] + more.value)
  }

  /** The entries of an index, if every line can be read. */
  function ReadIndex(text: string): Option<seq<Entry>>
    decreases |text|
  {
    if text == "" then Some([])
    else
      var line := NextChunk(text);
      Before(ReadLine(line), ReadIndex(text[|line|..]))
  }

  lemma NoWords(s: string)
    requires StripLeft(s) == ""
    ensures Words(s) == []
  {
  }

  lemma FirstWord(w: string, rest: string)
    requires IsWord(w) && (rest == "" || IsSpace(rest[0]))
    ensures Words(" " + (w + rest)) == [w] + Words(rest)
  {
    BlankInFront(w + rest);
    WordInFront(w, rest);
  }

  /** Flags that were joined are told apart again. */
  lemma {:induction false} FlagsRoundTrip(flags: seq<string>)
    requires AllWords(flags)
    ensures Words(" " + (Join(flags) + "\n")) == flags
  {
    var end: string := "\n";
    assert end[1..] == "" && StripLeft(end) == "";
    if flags == [] {
      assert Join(flags) + end == end && (" " + end)[1..] == end;
      NoWords(" " + end);
    } else if |flags| == 1 {
      FirstWord(flags[0], end);
      NoWords(end);
      assert flags == [flags[0]];
    } else {
      var rest := " " + (Join(flags[1..]) + end);
      assert Join(flags) + end == flags[0] + rest;
      FirstWord(flags[0], rest);
      FlagsRoundTrip(flags[1..]);
      assert flags == [flags[0]] + flags[1..];
    }
  }

  lemma LineReads(e: Entry)
    requires GoodEntry(e)
    ensures ReadLine(LineOf(e)) == Some(e)
  {
    LineScans(e);
    FlagsRoundTrip(e.flags);
  }

  lemma FirstLineReads(e: Entry, rest: string)
    requires GoodEntry(e)
    ensures ReadIndex(LineOf(e) + rest) == Before(Some(e), ReadIndex(rest))
  {
    ChunkIsLine(e, rest);
    LineReads(e);
  }

  /** An index that was written reads back, entry for entry. */
  lemma {:induction false} IndexRoundTrip(es: seq<Entry>)
    requires AllGood(es)
    ensures ReadIndex(IndexText(es)) == Some(es)
  {
    if es != [] {
      IndexRoundTrip(es[1..]);
      MoreReads(es);
    }
  }

  lemma MoreReads(es: seq<Entry>)
    requires es != [] && GoodEntry(es[0]) && ReadIndex(IndexText(es[1..])) == Some(es[1..])
    ensures ReadIndex(IndexText(es)) == Some(es)
  {
    FirstLineReads(es[0], IndexText(es[1..]));
    assert [es[0]] + es[1..] == es;
  }
}
