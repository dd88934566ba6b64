/**
  The lock on a message box's index: open_mmbox_index opens or creates it, locks it and checks the name,
  and update_mmbox_index renames a locked temporary file over it. This is the protocol of the queue files,
  for a file that is created empty.
 */
module MmBoxLocking {
  import opened Wrappers
  import opened Text
  import opened MmBoxIndex
  import B = MmBox
  import P = QueueProtocol
  import R = QueueRefinement
  import F = QueueFaults
  import L = LockedStore

  /** The index as the protocol sees it. An empty file is the index of an empty box. */
  ghost function IndexFormat(): P.Codec<seq<Entry>> {
    P.Codec((es: seq<Entry>) => AllGood(es), (es: seq<Entry>) => IndexText(es), (now: int, text: string) => ReadIndex(text), Some([]))
  }

  lemma IndexFormatIsSound()
    ensures P.Sound(IndexFormat())
  {
    var c := IndexFormat();
    forall es, now | c.valid(es) ensures c.decode(now, c.encode(es)) == Some(es) {
      IndexRoundTrip(es);
    }
  }

  /** What an update writes is the index of the edited list, which may be renamed into place. */
  lemma UpdatesAreValid(cmd: Cmd, es: seq<Entry>)
    requires AllGood(es) && (!cmd.Del? ==> GoodEntry(cmd.e))
    ensures IndexFormat().valid(Edit(cmd, es)) && Rewrite(cmd, IndexText(es)) == IndexFormat().encode(Edit(cmd, es))
  {
    RewriteEdits(cmd, es);
    B.EditKeepsGood(cmd, es);
    if cmd.Add? {
      B.GoodAppend(EditEach(cmd, es), cmd.e);
    } else {
      assert Edit(cmd, es) == EditEach(cmd, es);
    }
  }

  /** Main result: with any number of processes opening, creating, locking, rewriting and crashing, an index has
      one holder at a time and changes only from the version its holder read: one operation works on a box at a time. */
  lemma IndexRunRefinesStore(run: seq<P.State<seq<Entry>>>, i: nat)
    requires P.IsRun(IndexFormat(), P.NoFaults, run) && i < |run|
    ensures L.Consistent(R.Abs(IndexFormat(), run[i])) && R.Exclusive(run[i])
    ensures i + 1 < |run| ==> L.Next(R.Abs(IndexFormat(), run[i]), R.Abs(IndexFormat(), run[i + 1]))
  {
    IndexFormatIsSound();
    R.RunRefinesStore(IndexFormat(), run, i);
  }

  /** The index is safe exactly when no write to a temporary file falls short. */
  lemma IndexSafeIff(faults: P.Faults, e: Entry)
    requires GoodEntry(e)
    ensures (forall run: seq<P.State<seq<Entry>>>, i :: P.IsRun(IndexFormat(), faults, run) && 0 <= i < |run| ==>
               L.Consistent(R.Abs(IndexFormat(), run[i])) && R.Exclusive(run[i]))
       <==> !faults.short
  {
    IndexFormatIsSound();
    assert [e][1..] == [] && AllGood([e]);
    OneEntry(e);
    F.StoreIffNoFaults(IndexFormat(), faults, [e]);
  }
}
