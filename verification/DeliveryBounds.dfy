/**
  How long an entry lives and how far apart its runs are, when nothing but runs happens to it and every
  write succeeds.
 */
module DeliveryBounds {
  import opened Wrappers
  import opened Envelopes
  import opened Delivery
  import opened DeliveryRun
  import opened DeliveryLife

  /** The run gets as far as the recipients. */
  predicate Proceeds(s: Settings, o: Oracle, e: Envelope) {
    if NeedsBill(s, e) then o.bill >= 0.0 else s.gateway == MmsBox ==> o.loads
  }

  /** What a run leaves on disk in the end. */
  function Outcome(s: Settings, o: Oracle, e: Envelope): Option<Envelope> {
    Disk(Some(e), Run(s, o, e).trace)
  }

  /** Parts of the envelope the recipient loop leaves alone. */
  ghost predicate SameRun(e: Envelope, x: Envelope) {
    x.attempts == e.attempts && |x.to| == |e.to| && x.msgType == e.msgType && x.billed == e.billed
  }

  lemma {:induction false} LoopKeeps(s: Settings, o: Oracle, e: Envelope, i: nat)
    requires i <= |e.to|
    ensures Loop(s, o, e, i).left.Some? ==> SameRun(e, Loop(s, o, e, i).left.value)
    decreases |e.to| - i
  {
    if i < |e.to| && !e.to[i].pending {
      LoopKeeps(s, o, e, i + 1);
    } else if i < |e.to| {
      AttemptKeeps(s, o, e, i);
      var a := Attempt(s, o, e, i);
      if a.left.Some? {
        LoopKeeps(s, o, a.left.value, i + 1);
      }
    }
  }

  lemma AttemptKeeps(s: Settings, o: Oracle, e: Envelope, i: nat)
    requires i < |e.to|
    ensures Attempt(s, o, e, i).left.Some? ==> SameRun(e, Attempt(s, o, e, i).left.value)
  {
  }

  /** The envelope with which a run reaches its end, unless the entry is removed before. */
  function Reached(s: Settings, o: Oracle, e: Envelope): Option<Envelope> {
    if NeedsBill(s, e) then
      var b := Bill(o, e);
      if b.left.None? || !b.left.value.billed then b.left else Loop(s, o, b.left.value, 0).left
    else if s.gateway == MmsBox && !o.loads then Some(e)
    else Loop(s, o, e, 0).left
  }

  /** A trace that ends with the closing of `x` leaves what the closing wrote. */
  lemma DiskAfterClose(s: Settings, o: Oracle, e: Envelope, before: seq<Event>, x: Envelope)
    requires forall k: nat :: o.writes(k)
    ensures
      var c := Close(s, o, x).trace;
      Disk(Some(e), before + c) == if c[0].Wrote? then Some(c[0].env) else None
  {
    var c := Close(s, o, x).trace;
    var all := before + c;
    if c[0].Wrote? {
      assert all[|all| - 1] == Freed && all[..|all| - 1][|all| - 2] == c[0];
    } else {
      assert all[|all| - 1] == Removed;
    }
  }

  /** The final update of a run: the attempt is counted and the next run put off. */
  lemma RunOutcome(s: Settings, o: Oracle, e: Envelope)
    requires forall k: nat :: o.writes(k)
    ensures
      match Reached(s, o, e)
      case None => Outcome(s, o, e) == None
      case Some(x) =>
        var now := o.clock(|x.to| + 1);
        Outcome(s, o, e)
        == Update(Counted(s, x, now), now, true).left
  {
    RunGood(s, o, e);
    var x := Reached(s, o, e);
    if x.Some? {
      var before := RunEndsWithClose(s, o, e);
      DiskAfterClose(s, o, e, before, x.value);
    } else {
      RunEndsRemoved(s, o, e);
    }
  }

  lemma RunEndsWithClose(s: Settings, o: Oracle, e: Envelope) returns (before: seq<Event>)
    requires Reached(s, o, e).Some?
    ensures Run(s, o, e).trace == before + Close(s, o, Reached(s, o, e).value).trace
  {
    if NeedsBill(s, e) {
      var b := Bill(o, e);
      if b.left.None? || !b.left.value.billed {
        before := b.trace;
      } else {
        before := b.trace + Loop(s, o, b.left.value, 0).trace;
      }
    } else if s.gateway == MmsBox && !o.loads {
      before := [];
    } else {
      before := Loop(s, o, e, 0).trace;
    }
  }

  lemma RunEndsRemoved(s: Settings, o: Oracle, e: Envelope)
    requires Reached(s, o, e).None?
    ensures Outcome(s, o, e) == None
  {
    var trace := Run(s, o, e).trace;
    if NeedsBill(s, e) {
      var b := Bill(o, e);
      if b.left.Some? {
        LoopRemoved(s, o, b.left.value, 0);
      }
    } else {
      LoopRemoved(s, o, e, 0);
    }
    assert trace[|trace| - 1] == Removed;
  }

  lemma {:induction false} LoopRemoved(s: Settings, o: Oracle, e: Envelope, i: nat)
    requires i <= |e.to| && Loop(s, o, e, i).left.None?
    ensures var t := Loop(s, o, e, i).trace; t != [] && t[|t| - 1] == Removed
    decreases |e.to| - i
  {
    if i < |e.to| && !e.to[i].pending {
      LoopRemoved(s, o, e, i + 1);
    } else if i < |e.to| {
      AttemptKeeps(s, o, e, i);
      var a := Attempt(s, o, e, i);
      if a.left.Some? {
        LoopRemoved(s, o, a.left.value, i + 1);
      }
    }
  }

  lemma ReachedKeeps(s: Settings, o: Oracle, e: Envelope)
    requires Reached(s, o, e).Some?
    ensures
      var x := Reached(s, o, e).value;
      && x.attempts == e.attempts && |x.to| == |e.to| && x.msgType == e.msgType
      && (Proceeds(s, o, e) ==> !NeedsBill(s, x))
      && (!NeedsBill(s, e) ==> x.billed == e.billed)
  {
    if NeedsBill(s, e) {
      var b := Bill(o, e);
      if b.left.Some? {
        LoopKeeps(s, o, b.left.value, 0);
      }
    } else {
      LoopKeeps(s, o, e, 0);
    }
  }

  /** A surviving entry has one attempt more and is due no sooner than the back-off demands. */
  lemma SurvivorCounts(s: Settings, o: Oracle, e: Envelope)
    requires (forall k: nat :: o.writes(k)) && Outcome(s, o, e).Some?
    ensures
      var w := Outcome(s, o, e).value;
      && w.attempts == e.attempts + 1
      && w.sendTime == o.clock(|e.to| + 1) + s.backOff * (e.attempts + 1)
      && w.msgType == e.msgType
      && (Proceeds(s, o, e) ==> !NeedsBill(s, w))
      && (!NeedsBill(s, e) ==> w.billed == e.billed)
  {
    RunOutcome(s, o, e);
    ReachedKeeps(s, o, e);
  }

  // ---- the end of a life ----

  /** No delivery may be attempted any more: the limit is reached, or the expiry passed. */
  ghost predicate Hopeless(s: Settings, o: Oracle, e: Envelope) {
    e.attempts >= s.maxAttempts || (e.expiry > 0 && forall k: nat :: e.expiry < o.clock(k))
  }

  lemma {:induction false} HopelessLoop(s: Settings, o: Oracle, e: Envelope, i: nat)
    requires i <= |e.to| && Hopeless(s, o, e)
    requires forall j :: 0 <= j < i ==> !e.to[j].pending
    ensures Loop(s, o, e, i).left.Some? ==> !HasPending(Loop(s, o, e, i).left.value.to)
    decreases |e.to| - i
  {
    if i < |e.to| && !e.to[i].pending {
      HopelessLoop(s, o, e, i + 1);
    } else if i < |e.to| {
      HopelessAttempt(s, o, e, i);
      var a := Attempt(s, o, e, i);
      if a.left.Some? {
        HopelessLoop(s, o, a.left.value, i + 1);
      }
    }
  }

  lemma HopelessAttempt(s: Settings, o: Oracle, e: Envelope, i: nat)
    requires i < |e.to| && Hopeless(s, o, e) && forall j :: 0 <= j < i ==> !e.to[j].pending
    ensures
      match Attempt(s, o, e, i).left
      case None => true
      case Some(x) => |x.to| == |e.to| && Hopeless(s, o, x) && forall j :: 0 <= j <= i ==> !x.to[j].pending
  {
    assert !MayTry(s, e, o.clock(i + 1));
  }

  /** A run that gets to the recipients of a hopeless entry removes it. */
  lemma HopelessRunEnds(s: Settings, o: Oracle, e: Envelope)
    requires (forall k: nat :: o.writes(k)) && Proceeds(s, o, e) && Hopeless(s, o, e)
    ensures Outcome(s, o, e) == None
  {
    RunOutcome(s, o, e);
    if NeedsBill(s, e) {
      var b := Bill(o, e);
      if b.left.Some? {
        HopelessLoop(s, o, b.left.value, 0);
      }
    } else {
      HopelessLoop(s, o, e, 0);
    }
  }

  /** The entry after a series of runs. */
  function Runs(s: Settings, d: Option<Envelope>, os: seq<Oracle>): Option<Envelope>
    decreases |os|
  {
    if os == [] || d.None? then d else Runs(s, Outcome(s, os[0], d.value), os[1..])
  }

  ghost predicate AllWrite(os: seq<Oracle>) {
    forall i, k: nat :: 0 <= i < |os| ==> os[i].writes(k)
  }

  /** Runs left before the attempt limit, and one to notice it. */
  function RunsLeft(s: Settings, e: Envelope): nat {
    1 + if e.attempts < s.maxAttempts then s.maxAttempts - e.attempts else 0
  }

  /** The MMSC removes an entry that needs no billing within the runs its attempt limit allows. */
  lemma {:induction false} BilledLifeEnds(s: Settings, e: Envelope, os: seq<Oracle>)
    requires s.gateway == Mmsc && !NeedsBill(s, e) && AllWrite(os) && |os| >= RunsLeft(s, e)
    ensures Runs(s, Some(e), os) == None
    decreases |os|
  {
    var d := Outcome(s, os[0], e);
    if d.Some? {
      SurvivorCounts(s, os[0], e);
      if e.attempts >= s.maxAttempts {
        HopelessRunEnds(s, os[0], e);
      }
      BilledLifeEnds(s, d.value, os[1..]);
    }
  }

  /** A billing module that keeps answering -2, or a message that cannot be loaded. */
  function Stalled(): Oracle {
    Oracle(-2.0, false, (i: nat) => Transient, (i: nat) => 0, (i: nat) => true)
  }

  function Stalls(n: nat): (os: seq<Oracle>)
    ensures |os| == n
  {
    seq(n, i => Stalled())
  }

  /** Such runs skip both the expiry and the attempt check, so the entry survives any number of them. */
  lemma {:induction false} StalledLifeGoesOn(s: Settings, e: Envelope, n: nat)
    requires HasPending(e.to) && (NeedsBill(s, e) || s.gateway == MmsBox)
    ensures Runs(s, Some(e), Stalls(n)).Some?
    decreases n
  {
    if n > 0 {
      var o := Stalled();
      RunOutcome(s, o, e);
      var d := Outcome(s, o, e);
      assert Stalls(n)[1..] == Stalls(n - 1);
      StalledLifeGoesOn(s, d.value, n - 1);
    }
  }

  /** Main result: the attempt limit bounds the life of a pending entry, whatever the transports do,
      exactly when the entry is at the MMSC and needs no billing. */
  lemma LifeBoundedIff(s: Settings, e: Envelope)
    requires HasPending(e.to)
    ensures (forall os :: AllWrite(os) && |os| >= RunsLeft(s, e) ==> Runs(s, Some(e), os) == None)
        <==> s.gateway == Mmsc && !NeedsBill(s, e)
  {
    if s.gateway == Mmsc && !NeedsBill(s, e) {
      forall os | AllWrite(os) && |os| >= RunsLeft(s, e) ensures Runs(s, Some(e), os) == None {
        BilledLifeEnds(s, e, os);
      }
    } else {
      StalledLifeGoesOn(s, e, RunsLeft(s, e));
      assert AllWrite(Stalls(RunsLeft(s, e)));
    }
  }

  /** The run gets an answer to what it depends on: a bill or a refusal at the MMSC, the message at the mmsbox. */
  predicate Answered(s: Settings, o: Oracle) {
    if s.gateway == Mmsc then o.bill >= 0.0 || o.bill == -1.0 else o.loads
  }

  lemma RefusedRunEnds(s: Settings, o: Oracle, e: Envelope)
    requires (forall k: nat :: o.writes(k)) && NeedsBill(s, e) && o.bill == -1.0
    ensures Outcome(s, o, e) == None
  {
    RunOutcome(s, o, e);
    assert !HasPending(AfterBill(o.bill, e).to);
  }

  /** One answered run past the attempt limit removes the entry. */
  lemma AnsweredRunEnds(s: Settings, o: Oracle, e: Envelope)
    requires (forall k: nat :: o.writes(k)) && Answered(s, o) && e.attempts >= s.maxAttempts
    ensures Outcome(s, o, e) == None
  {
    if NeedsBill(s, e) && o.bill == -1.0 {
      RefusedRunEnds(s, o, e);
    } else {
      HopelessRunEnds(s, o, e);
    }
  }

  /** Main result: at either gateway, billed or not, an entry is gone once a run is answered after the attempts
      are used up; runs that are not answered use up attempts like any other. */
  lemma {:induction false} AnsweredLifeEnds(s: Settings, e: Envelope, os: seq<Oracle>, i: nat)
    requires AllWrite(os) && RunsLeft(s, e) - 1 <= i < |os| && Answered(s, os[i])
    ensures Runs(s, Some(e), os) == None
    decreases |os|
  {
    var d := Outcome(s, os[0], e);
    if d.Some? {
      SurvivorCounts(s, os[0], e);
      if i == 0 {
        AnsweredRunEnds(s, os[0], e);
      } else {
        AnsweredLifeEnds(s, d.value, os[1..], i - 1);
      }
    }
  }

  // ---- the spacing of runs ----

  /** The sum a+1, a+2, ... of `k` terms. */
  function Steps(a: int, k: nat): int
    decreases k
  {
    if k == 0 then 0 else a + 1 + Steps(a + 1, k - 1)
  }

  lemma {:induction false} StepsSum(a: int, k: nat)
    ensures 2 * Steps(a, k) == 2 * k * a + k * (k + 1)
    decreases k
  {
    if k > 0 {
      StepsSum(a + 1, k - 1);
    }
  }

  /** Successive runs of one entry: each starts when the entry is due, its clock does not run backwards,
      and each but the last leaves the entry on disk. */
  ghost predicate Successive(s: Settings, e: Envelope, os: seq<Oracle>)
    decreases |os|
  {
    os == [] || (
      && os[0].clock(0) >= e.sendTime
      && (forall k: nat :: os[0].clock(k) >= os[0].clock(0))
      && (|os| > 1 ==> Outcome(s, os[0], e).Some? && Successive(s, Outcome(s, os[0], e).value, os[1..])))
  }

  /** The second run waits for the back-off of the first. */
  lemma NextWaits(s: Settings, e: Envelope, os: seq<Oracle>) returns (w: Envelope)
    requires s.backOff >= 0 && |os| > 1 && AllWrite(os) && Successive(s, e, os)
    ensures Outcome(s, os[0], e) == Some(w) && w.attempts == e.attempts + 1
    ensures Successive(s, w, os[1..]) && AllWrite(os[1..])
    ensures os[1].clock(0) >= os[0].clock(0) + s.backOff * (e.attempts + 1)
  {
    w := Outcome(s, os[0], e).value;
    SurvivorCounts(s, os[0], e);
    assert os[1..][0] == os[1];
  }

  lemma Distribute(b: int, x: int, y: int)
    ensures b * x + b * y == b * (x + y)
  {
  }

  /** Main result: after k runs the next one starts at least the sum of k growing back-offs after the
      first. */
  lemma {:induction false} BackOffGrows(s: Settings, e: Envelope, os: seq<Oracle>)
    requires s.backOff >= 0 && os != [] && AllWrite(os) && Successive(s, e, os)
    ensures os[|os| - 1].clock(0) >= os[0].clock(0) + s.backOff * Steps(e.attempts, |os| - 1)
    decreases |os|
  {
    if |os| > 1 {
      var k := |os| - 1;
      var w := NextWaits(s, e, os);
      BackOffGrows(s, w, os[1..]);
      Distribute(s.backOff, e.attempts + 1, Steps(w.attempts, k - 1));
    }
  }

  /** For a fresh entry the sum is k(k+1)/2. */
  lemma FreshBackOff(s: Settings, e: Envelope, os: seq<Oracle>)
    requires s.backOff >= 0 && os != [] && AllWrite(os) && Successive(s, e, os) && e.attempts == 0
    ensures var k := |os| - 1; os[k].clock(0) >= os[0].clock(0) + s.backOff * (k * (k + 1) / 2)
  {
    BackOffGrows(s, e, os);
    StepsSum(0, |os| - 1);
    assert Steps(0, |os| - 1) == (|os| - 1) * |os| / 2;
  }
}
