/**
  The queue protocol over the real file format: the crash and interleaving results hold for envelopes
  as writeenvelope and mms_queue_readenvelope write and read them.
 */
module QueueOnDisk {
  import opened Wrappers
  import opened Text
  import opened StringTable
  import opened Envelopes
  import opened EnvelopeCodec
  import opened EnvelopeRoundTrip
  import opened AddressRepair
  import P = QueueProtocol
  import R = QueueRefinement
  import L = LockedStore
  import F = QueueFaults

  /** The reader at time `now`; times outside the clock's range are read as 0. */
  function ReaderAt(types: Table, now: int): Reader {
    Reader(if 0 <= now <= LONG_MAX - DEFAULT_EXPIRE then now else 0, types)
  }

  /** The queue file format as the protocol sees it, for envelopes that survive a round trip. */
  ghost function FileFormat(types: Table): P.Codec<Envelope> {
    P.Codec((e: Envelope) => Storable(e) && Settled(types, e),
            (e: Envelope) => if e.InRange() then Encode(types, e) else "",
            (now: int, bytes: string) => Decode(ReaderAt(types, now), bytes),
            None)
  }

  /** The file format meets what the protocol asks of a codec. */
  lemma FileFormatIsSound(types: Table)
    requires GoodTable(types)
    ensures P.Sound(FileFormat(types))
  {
    var c := FileFormat(types);
    forall e, now | c.valid(e) ensures c.encode(e) != "" && c.decode(now, c.encode(e)) == Some(e) {
      RoundTripIffSettled(ReaderAt(types, now), e);
    }
    forall e, p, now | c.valid(e) && p < c.encode(e) ensures c.decode(now, p) == None {
      CutFileIsRejected(ReaderAt(types, now), e, p);
    }
  }

  /** Main result: with any number of workers opening, locking, reading, rewriting, removing, creating
      and crashing, every step of every run leaves each queue file as one whole envelope or as nothing
      readable, owned by at most one worker, and changed only by its owner from the version it read. */
  lemma QueueRunRefinesStore(types: Table, run: seq<P.State<Envelope>>, i: nat)
    requires GoodTable(types) && P.IsRun(FileFormat(types), P.NoFaults, run) && i < |run|
    ensures L.Consistent(R.Abs(FileFormat(types), run[i])) && R.Exclusive(run[i])
    ensures i + 1 < |run| ==> L.Next(R.Abs(FileFormat(types), run[i]), R.Abs(FileFormat(types), run[i + 1]))
  {
    FileFormatIsSound(types);
    R.RunRefinesStore(FileFormat(types), run, i);
  }

  /** The queue keeps its promises exactly when no write falls short and flock does not fail on files just made. */
  lemma QueueSafeIff(types: Table, faults: P.Faults, e: Envelope)
    requires GoodTable(types) && Storable(e) && Settled(types, e)
    ensures (forall run: seq<P.State<Envelope>>, i :: P.IsRun(FileFormat(types), faults, run) && 0 <= i < |run| ==>
               L.Consistent(R.Abs(FileFormat(types), run[i])) && R.Exclusive(run[i]))
       <==> !faults.short && !faults.hard
  {
    FileFormatIsSound(types);
    F.StoreIffNoFaults(FileFormat(types), faults, e);
  }

  /** An address in the envelope grows on every read. */
  predicate SomeAddressGrows(e: Envelope) {
    (e.from.Some? && Grows(e.from.value)) || exists i :: 0 <= i < |e.to| && Grows(e.to[i].address)
  }

  /** After one read an envelope is settled for good, exactly when none of its addresses grows. */
  lemma OneReadSettlesIff(r: Reader, e: Envelope)
    requires GoodTable(r.types) && Storable(e)
    ensures Settled(r.types, Normal(r, e)) <==> !SomeAddressGrows(e)
  {
    var n := Normal(r, e);
    if e.from.Some? {
      RepairSettlesIff(e.from.value);
    }
    forall i | 0 <= i < |e.to| ensures SettledAddress(n.to[i].address) <==> !Grows(e.to[i].address) {
      RepairSettlesIff(e.to[i].address);
      assert n.to[i] == Reread(e.to[i]);
    }
    RoundedTwice(e.amount);
    assert ReadType(r.types, e.msgType) == 0 || WordOf(r.types, e.msgType).Some?;
  }

  lemma RoundedTwice(a: real)
    requires a >= 0.0
    ensures var b := Thousandths(a) as real / 1000.0; (b * 1000.0).Floor as real == b * 1000.0
  {
    var n := Thousandths(a);
    assert n as real / 1000.0 * 1000.0 == n as real;
  }
}
