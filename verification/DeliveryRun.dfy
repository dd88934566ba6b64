/**
  What every run keeps, whatever the transports, the billing module, the clock and the disk do.
 */
module DeliveryRun {
  import opened Wrappers
  import opened Envelopes
  import opened Delivery

  /** `b` is a later version of `a`: same recipients, none pending again, never unbilled. */
  ghost predicate Descends(a: Envelope, b: Envelope) {
    && |a.to| == |b.to|
    && (forall i :: 0 <= i < |a.to| ==> b.to[i].address == a.to[i].address && (b.to[i].pending ==> a.to[i].pending))
    && (a.billed ==> b.billed)
    && a.msgType == b.msgType
  }

  predicate IsClose(x: Event) {
    x.Removed? || x.Freed?
  }

  ghost predicate Open(trace: seq<Event>) {
    forall t :: 0 <= t < |trace| ==> !IsClose(trace[t])
  }

  /** The envelope is given back exactly once, as the very last thing. */
  ghost predicate ClosedOnce(trace: seq<Event>) {
    trace != [] && IsClose(trace[|trace| - 1]) && Open(trace[..|trace| - 1])
  }

  /** The event records on disk that recipient `i` needs no more. */
  predicate Settled(x: Event, i: nat) {
    x.Removed? || (x.Wrote? && i < |x.env.to| && !x.env.to[i].pending)
  }

  predicate BillKept(x: Event) {
    x.Removed? || (x.Wrote? && x.env.billed)
  }

  /** Every success is put on record by the very next event. */
  ghost predicate Recorded(s: Settings, trace: seq<Event>) {
    && (forall t :: 0 <= t < |trace| && trace[t].Sent? && Settles(s, trace[t].result) ==>
          t + 1 < |trace| && Settled(trace[t + 1], trace[t].i))
    && (forall t :: 0 <= t < |trace| && trace[t].Billed? && trace[t].amount >= 0.0 ==>
          t + 1 < |trace| && BillKept(trace[t + 1]))
  }

  /** Recipients are tried in order, each at most once, only those pending and in `[lo, hi)`. */
  ghost predicate InOrder(e: Envelope, trace: seq<Event>, lo: nat, hi: nat) {
    && (forall t :: 0 <= t < |trace| && trace[t].Sent? ==>
          lo <= trace[t].i < hi && trace[t].i < |e.to| && e.to[trace[t].i].pending)
    && (forall t, u :: 0 <= t < u < |trace| && trace[t].Sent? && trace[u].Sent? ==> trace[t].i < trace[u].i)
  }

  /** The versions written descend from the one read, each from the one before. */
  ghost predicate Versions(e: Envelope, trace: seq<Event>) {
    && (forall t :: 0 <= t < |trace| && trace[t].Wrote? ==> Descends(e, trace[t].env))
    && (forall t, u :: 0 <= t < u < |trace| && trace[t].Wrote? && trace[u].Wrote? ==> Descends(trace[t].env, trace[u].env))
  }

  /** All of it, for a course that starts with `e` in hand. */
  ghost predicate Good(s: Settings, e: Envelope, c: Course, lo: nat, hi: nat) {
    && Recorded(s, c.trace)
    && InOrder(e, c.trace, lo, hi)
    && Versions(e, c.trace)
    && match c.left
       case None => ClosedOnce(c.trace)
       case Some(x) => Open(c.trace) && Descends(e, x)
                       && forall t :: 0 <= t < |c.trace| && c.trace[t].Wrote? ==> Descends(c.trace[t].env, x)
  }

  lemma DescendsTransitively(a: Envelope, b: Envelope, c: Envelope)
    requires Descends(a, b) && Descends(b, c)
    ensures Descends(a, c)
  {
  }

  lemma RecordedAppend(s: Settings, a: seq<Event>, b: seq<Event>)
    requires Recorded(s, a) && Recorded(s, b)
    ensures Recorded(s, a + b)
  {
  }

  lemma InOrderAppend(e: Envelope, x: Envelope, a: seq<Event>, b: seq<Event>, lo: nat, mid: nat, hi: nat)
    requires lo <= mid <= hi && InOrder(e, a, lo, mid) && InOrder(x, b, mid, hi) && Descends(e, x)
    ensures InOrder(e, a + b, lo, hi)
  {
  }

  lemma VersionsAppend(e: Envelope, x: Envelope, a: seq<Event>, b: seq<Event>)
    requires Versions(e, a) && Versions(x, b) && Descends(e, x)
    requires forall t :: 0 <= t < |a| && a[t].Wrote? ==> Descends(a[t].env, x)
    ensures Versions(e, a + b)
  {
    var c := a + b;
    forall t | 0 <= t < |c| && c[t].Wrote? ensures Descends(e, c[t].env) {
      if t >= |a| {
        DescendsTransitively(e, x, b[t - |a|].env);
      }
    }
    forall t, u | 0 <= t < u < |c| && c[t].Wrote? && c[u].Wrote? ensures Descends(c[t].env, c[u].env) {
      if t < |a| <= u {
        DescendsTransitively(a[t].env, x, b[u - |a|].env);
      } else if t >= |a| {
        assert c[t] == b[t - |a|] && c[u] == b[u - |a|];
      }
    }
  }

  lemma OpenAppend(a: seq<Event>, b: seq<Event>)
    requires Open(a)
    ensures Open(b) ==> Open(a + b)
    ensures ClosedOnce(b) ==> ClosedOnce(a + b)
  {
    if ClosedOnce(b) {
      assert (a + b)[..|a + b| - 1] == a + b[..|b| - 1];
    }
  }

  /** One course after another. */
  lemma Compose(s: Settings, e: Envelope, a: Course, b: Course, lo: nat, mid: nat, hi: nat)
    requires lo <= mid <= hi && Good(s, e, a, lo, mid) && a.left.Some? && Good(s, a.left.value, b, mid, hi)
    ensures Good(s, e, Course(a.trace + b.trace, b.left), lo, hi)
  {
    var x := a.left.value;
    RecordedAppend(s, a.trace, b.trace);
    InOrderAppend(e, x, a.trace, b.trace, lo, mid, hi);
    VersionsAppend(e, x, a.trace, b.trace);
    OpenAppend(a.trace, b.trace);
    if b.left.Some? {
      var y, c := b.left.value, a.trace + b.trace;
      DescendsTransitively(e, x, y);
      forall t | 0 <= t < |c| && c[t].Wrote? ensures Descends(c[t].env, y) {
        if t < |a.trace| {
          DescendsTransitively(a.trace[t].env, x, y);
        }
      }
    }
  }

  // ---- the parts of a run ----

  lemma UpdateGood(s: Settings, e: Envelope, x: Envelope, now: int, ok: bool, lo: nat, hi: nat)
    requires Descends(e, x)
    ensures Good(s, e, Update(x, now, ok), lo, hi)
    ensures Update(x, now, ok).left.Some? ==> Update(x, now, ok).left.value.billed == x.billed
  {
    var u := Update(x, now, ok);
    if u.left.Some? {
      WriteGood(s, e, u.left.value, ok, lo, hi);
    } else {
      RemovalGood(s, e, lo, hi);
    }
  }

  lemma WriteGood(s: Settings, e: Envelope, x: Envelope, ok: bool, lo: nat, hi: nat)
    requires Descends(e, x)
    ensures Good(s, e, Course([Wrote(x, ok)], Some(x)), lo, hi)
  {
  }

  lemma RemovalGood(s: Settings, e: Envelope, lo: nat, hi: nat)
    ensures Good(s, e, Course([Removed], None), lo, hi)
  {
    assert [Removed][..0] == [];
  }

  /** An attempt or a billing in front of the update that records it. */
  lemma Headed(s: Settings, e: Envelope, x: Event, c: Course, lo: nat, hi: nat)
    requires Good(s, e, c, lo, hi) && |c.trace| <= 1 && (forall t :: 0 <= t < |c.trace| ==> !c.trace[t].Sent?)
    requires x.Sent? || x.Billed?
    requires x.Sent? ==> lo <= x.i < hi && x.i < |e.to| && e.to[x.i].pending
    requires x.Sent? && Settles(s, x.result) ==> |c.trace| == 1 && Settled(c.trace[0], x.i)
    requires x.Billed? && x.amount >= 0.0 ==> |c.trace| == 1 && BillKept(c.trace[0])
    ensures Good(s, e, Course([x] + c.trace, c.left), lo, hi)
  {
    OpenAppend([x], c.trace);
    var d := [x] + c.trace;
    assert forall t :: 0 < t < |d| ==> d[t] == c.trace[t - 1];
    assert Recorded(s, d);
    assert InOrder(e, d, lo, hi);
    assert Versions(e, d);
  }

  lemma AttemptGood(s: Settings, o: Oracle, e: Envelope, i: nat)
    requires i < |e.to| && e.to[i].pending
    ensures Good(s, e, Attempt(s, o, e, i), i, i + 1)
  {
    var x := Dealt(s, o, e, i);
    var u := Update(x, o.clock(i + 1), o.writes(i + 1));
    DealtDescends(s, o, e, i);
    UpdateGood(s, e, x, o.clock(i + 1), o.writes(i + 1), i, i + 1);
    if MayTry(s, e, o.clock(i + 1)) {
      UpdateSettles(x, i, o.clock(i + 1), o.writes(i + 1));
      Headed(s, e, Sent(i, o.result(i)), u, i, i + 1);
    } else {
      NothingBefore(u);
    }
  }

  lemma DealtDescends(s: Settings, o: Oracle, e: Envelope, i: nat)
    requires i < |e.to| && e.to[i].pending
    ensures Descends(e, Dealt(s, o, e, i))
  {
  }

  /** The update after an attempt is one event, and records the recipient if it is settled. */
  lemma UpdateSettles(x: Envelope, i: nat, now: int, ok: bool)
    requires i < |x.to|
    ensures var u := Update(x, now, ok).trace; |u| == 1 && !u[0].Sent? && (x.to[i].pending || Settled(u[0], i))
  {
  }

  lemma NothingBefore(c: Course)
    ensures Course([] + c.trace, c.left) == c
  {
    assert [] + c.trace == c.trace;
  }

  lemma {:induction false} LoopGood(s: Settings, o: Oracle, e: Envelope, i: nat)
    requires i <= |e.to|
    ensures Good(s, e, Loop(s, o, e, i), i, |e.to|)
    decreases |e.to| - i
  {
    if i < |e.to| && !e.to[i].pending {
      LoopGood(s, o, e, i + 1);
    } else if i < |e.to| {
      AttemptGood(s, o, e, i);
      var a := Attempt(s, o, e, i);
      if a.left.Some? {
        LoopGood(s, o, a.left.value, i + 1);
        Compose(s, e, a, Loop(s, o, a.left.value, i + 1), i, i + 1, |e.to|);
      }
    }
  }

  lemma CloseGood(s: Settings, o: Oracle, e: Envelope, n: nat)
    ensures Good(s, e, Close(s, o, e), n, n)
  {
    var now := o.clock(|e.to| + 1);
    var x := Counted(s, e, now);
    CountedDescends(s, e, now);
    UpdateGood(s, e, x, now, o.writes(|e.to| + 1), n, n);
    FreedLast(s, e, Update(x, now, o.writes(|e.to| + 1)), n);
  }

  lemma CountedDescends(s: Settings, e: Envelope, now: int)
    ensures Descends(e, Counted(s, e, now))
  {
  }

  lemma FreedLast(s: Settings, e: Envelope, u: Course, n: nat)
    requires Good(s, e, u, n, n) && |u.trace| == 1
    ensures Good(s, e, Course(u.trace + if u.left.Some? then [Freed] else [], None), n, n)
  {
    NothingAfter(u);
    var c := u.trace + [Freed];
    assert c[..|c| - 1] == u.trace;
    assert c[0] == u.trace[0] && c[1] == Freed;
  }

  lemma NothingAfter(c: Course)
    ensures Course(c.trace + [], c.left) == c
  {
    assert c.trace + [] == c.trace;
  }

  lemma CloseIfLeftGood(s: Settings, o: Oracle, e: Envelope, c: Course, lo: nat, hi: nat)
    requires lo <= hi && Good(s, e, c, lo, hi)
    ensures Good(s, e, CloseIfLeft(s, o, c), lo, hi) && CloseIfLeft(s, o, c).left.None?
  {
    if c.left.Some? {
      CloseGood(s, o, c.left.value, hi);
      Compose(s, e, c, Close(s, o, c.left.value), lo, hi, hi);
    }
  }

  lemma KeepBillGood(s: Settings, o: Oracle, e: Envelope)
    ensures Good(s, e, KeepBill(o, e), 0, 0) && |KeepBill(o, e).trace| <= 1
    ensures forall t :: 0 <= t < |KeepBill(o, e).trace| ==> !KeepBill(o, e).trace[t].Sent?
    ensures o.bill >= 0.0 ==> |KeepBill(o, e).trace| == 1 && BillKept(KeepBill(o, e).trace[0])
  {
    var e' := AfterBill(o.bill, e);
    assert Descends(e, e');
    UpdateGood(s, e, e', o.clock(0), o.writes(0), 0, 0);
  }

  lemma BillGood(s: Settings, o: Oracle, e: Envelope)
    ensures Good(s, e, Bill(o, e), 0, 0)
  {
    KeepBillGood(s, o, e);
    Headed(s, e, Billed(o.bill), KeepBill(o, e), 0, 0);
  }

  /** Main result: every run of either gateway tries pending recipients only, in order and once each,
      records each success at once, writes only descending versions, and gives the envelope back exactly
      once, last of all. */
  lemma RunGood(s: Settings, o: Oracle, e: Envelope)
    ensures Good(s, e, Run(s, o, e), 0, |e.to|) && Run(s, o, e).left.None?
  {
    if NeedsBill(s, e) {
      var b := Bill(o, e);
      BillGood(s, o, e);
      if b.left.None? || !b.left.value.billed {
        CloseIfLeftGood(s, o, e, b, 0, 0);
      } else {
        var x := b.left.value;
        LoopGood(s, o, x, 0);
        CloseIfLeftGood(s, o, x, Loop(s, o, x, 0), 0, |e.to|);
        Compose(s, e, b, CloseIfLeft(s, o, Loop(s, o, x, 0)), 0, 0, |e.to|);
      }
    } else {
      LoopGood(s, o, e, 0);
      CloseIfLeftGood(s, o, e, Loop(s, o, e, 0), 0, |e.to|);
      CloseIfLeftGood(s, o, e, Course([], Some(e)), 0, |e.to|);
    }
  }
}
