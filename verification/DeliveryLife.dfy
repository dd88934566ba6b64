/**
  The whole life of a queue entry: runs, runs cut short by a crash, acknowledgements over MM4, cancel
  and replace requests over MM7, in any order.
 */
module DeliveryLife {
  import opened Wrappers
  import opened Text
  import opened Envelopes
  import opened Delivery
  import opened DeliveryRun

  datatype Action =
    | Whole(o: Oracle)
    | Crashed(o: Oracle, k: nat)                       // the process dies after `k` events of the run
    | Acknowledge(who: Option<string>, now: int, ok: bool)
    | Cancel(now: int, ok: bool)
    | Replace(sendTime: Option<int>, now: int, ok: bool)

  /** An MM4 response settles the recipient it names, or all of them. */
  function Acknowledged(to: seq<Recipient>, who: Option<string>): (r: seq<Recipient>)
    ensures |r| == |to|
  {
    seq(|to|, i requires 0 <= i < |to| =>
      if who.None? || EqNoCase(who.value, to[i].address) then to[i].(pending := false) else to[i])
  }

  /** A request handler's update, after which it lets the envelope go. */
  function Handle(e: Envelope, now: int, ok: bool): seq<Event> {
    var u := Update(e, now, ok);
    u.trace + if u.left.Some? then [Freed] else []
  }

  /** The envelope a request handler writes. */
  function Requested(e: Envelope, a: Action): Envelope
    requires a.Acknowledge? || a.Cancel? || a.Replace?
  {
    match a
    case Acknowledge(who, _, _) => e.(to := Acknowledged(e.to, who))
    case Cancel(_, _) => e.(to := ClearAll(e.to))
    case Replace(t, _, _) => if t.Some? then e.(sendTime := t.value) else e
  }

  /** What an action does while the entry exists. */
  function Effects(s: Settings, e: Envelope, a: Action): seq<Event> {
    match a
    case Whole(o) => Run(s, o, e).trace
    case Crashed(o, k) => var t := Run(s, o, e).trace; if k < |t| then t[..k] else t
    case _ => Handle(Requested(e, a), a.now, a.ok)
  }

  /** The queue file after an action. */
  function Next(s: Settings, d: Option<Envelope>, a: Action): Option<Envelope> {
    if d.None? then None else Disk(d, Effects(s, d.value, a))
  }

  function After(s: Settings, d: Option<Envelope>, actions: seq<Action>): Option<Envelope>
    decreases |actions|
  {
    if actions == [] then d else After(s, Next(s, d, actions[0]), actions[1..])
  }

  /** Everything that happens to the entry. */
  function Log(s: Settings, d: Option<Envelope>, actions: seq<Action>): seq<Event>
    decreases |actions|
  {
    if actions == [] || d.None? then []
    else Effects(s, d.value, actions[0]) + Log(s, Next(s, d, actions[0]), actions[1..])
  }

  predicate Pending(d: Option<Envelope>, i: nat) {
    d.Some? && i < |d.value.to| && d.value.to[i].pending
  }

  predicate Unbilled(d: Option<Envelope>) {
    d.Some? && !d.value.billed
  }

  // ---- what any cut of a run's trace leaves on disk ----

  /** A trace that may stop anywhere but goes on after nothing final. */
  ghost predicate CloseLast(trace: seq<Event>) {
    forall t :: 0 <= t < |trace| - 1 ==> !IsClose(trace[t])
  }

  ghost predicate AllOk(trace: seq<Event>) {
    forall t :: 0 <= t < |trace| && trace[t].Wrote? ==> trace[t].ok
  }

  /** The version on disk descends from the version read. */
  lemma {:induction false} DiskDescends(e: Envelope, trace: seq<Event>)
    requires Versions(e, trace)
    ensures Disk(Some(e), trace).Some? ==> Descends(e, Disk(Some(e), trace).value)
    decreases |trace|
  {
    if trace != [] {
      DiskDescends(e, trace[..|trace| - 1]);
    }
  }

  /** Once recorded, a settlement and a bill stay on disk. */
  lemma {:induction false} RecordStays(e: Envelope, trace: seq<Event>, t: nat, i: nat)
    requires Versions(e, trace) && CloseLast(trace) && AllOk(trace) && t < |trace|
    ensures Settled(trace[t], i) ==> !Pending(Disk(Some(e), trace), i)
    ensures BillKept(trace[t]) ==> !Unbilled(Disk(Some(e), trace))
    decreases |trace|
  {
    var n := |trace| - 1;
    if t < n {
      RecordStays(e, trace[..n], t, i);
    }
  }

  lemma CutAhead(s: Settings, e: Envelope, trace: seq<Event>, n: nat, t: nat)
    requires Recorded(s, trace) && Versions(e, trace) && ClosedOnce(trace) && AllOk(trace)
    requires n <= |trace| && t < n && trace[t].Sent? && Settles(s, trace[t].result)
    requires Pending(Disk(Some(e), trace[..n]), trace[t].i)
    ensures t == n - 1 && n < |trace|
  {
    if t + 1 < n {
      RecordStays(e, trace[..n], t + 1, trace[t].i);
    }
  }

  /** Any cut of a run leaves at most one recipient that was served and is still pending on disk: the
      one served by the very last event before the cut. */
  lemma OnlyLastIsAhead(s: Settings, o: Oracle, e: Envelope, n: nat, t: nat)
    requires n <= |Run(s, o, e).trace| && t < n && AllOk(Run(s, o, e).trace)
    requires var x := Run(s, o, e).trace[t]; x.Sent? && Settles(s, x.result) && Pending(Disk(Some(e), Run(s, o, e).trace[..n]), x.i)
    ensures t == n - 1
  {
    RunGood(s, o, e);
    CutAhead(s, e, Run(s, o, e).trace, n, t);
  }

  // ---- counting over a life ----

  /** How often recipient `i` was served for good. */
  function Served(s: Settings, trace: seq<Event>, i: nat): nat
    decreases |trace|
  {
    if trace == [] then 0
    else
      var x := trace[|trace| - 1];
      Served(s, trace[..|trace| - 1], i) + if x.Sent? && x.i == i && Settles(s, x.result) then 1 else 0
  }

  /** How often a bill was raised. */
  function Charges(trace: seq<Event>): nat
    decreases |trace|
  {
    if trace == [] then 0
    else
      var x := trace[|trace| - 1];
      Charges(trace[..|trace| - 1]) + if x.Billed? && x.amount >= 0.0 then 1 else 0
  }

  lemma {:induction false} CountsAppend(s: Settings, a: seq<Event>, b: seq<Event>, i: nat)
    ensures Served(s, a + b, i) == Served(s, a, i) + Served(s, b, i)
    ensures Charges(a + b) == Charges(a) + Charges(b)
    decreases |b|
  {
    if b == [] {
      assert a + b == a;
    } else {
      assert (a + b)[..|a + b| - 1] == a + b[..|b| - 1];
      CountsAppend(s, a, b[..|b| - 1], i);
    }
  }

  lemma {:induction false} NotServed(s: Settings, trace: seq<Event>, i: nat)
    requires forall t :: 0 <= t < |trace| && trace[t].Sent? ==> trace[t].i != i
    ensures Served(s, trace, i) == 0
    decreases |trace|
  {
    if trace != [] {
      NotServed(s, trace[..|trace| - 1], i);
    }
  }

  /** In order and at most once: a count above zero has one witness. */
  lemma {:induction false} ServedOnce(s: Settings, e: Envelope, trace: seq<Event>, i: nat, hi: nat) returns (t: nat)
    requires InOrder(e, trace, 0, hi) && Served(s, trace, i) > 0
    ensures Served(s, trace, i) == 1
    ensures t < |trace| && trace[t].Sent? && trace[t].i == i && Settles(s, trace[t].result)
    decreases |trace|
  {
    var n := |trace| - 1;
    var x := trace[n];
    if x.Sent? && x.i == i && Settles(s, x.result) {
      t := n;
      NotServed(s, trace[..n], i);
    } else {
      t := ServedOnce(s, e, trace[..n], i, hi);
    }
  }

  /** Bills are raised only at the start. */
  ghost predicate BillsFirst(e: Envelope, trace: seq<Event>) {
    forall t :: 0 <= t < |trace| && trace[t].Billed? ==> t == 0 && !e.billed
  }

  lemma {:induction false} NotCharged(trace: seq<Event>)
    requires forall t :: 0 <= t < |trace| ==> !trace[t].Billed?
    ensures Charges(trace) == 0
    decreases |trace|
  {
    if trace != [] {
      NotCharged(trace[..|trace| - 1]);
    }
  }

  lemma {:induction false} ChargedOnce(e: Envelope, trace: seq<Event>)
    requires BillsFirst(e, trace) && Charges(trace) > 0
    ensures Charges(trace) == 1 && trace != [] && trace[0].Billed? && trace[0].amount >= 0.0
    decreases |trace|
  {
    var n := |trace| - 1;
    if trace[n].Billed? {
      NotCharged(trace[..n]);
    } else {
      ChargedOnce(e, trace[..n]);
    }
  }

  // ---- one action ----

  ghost predicate NoBills(trace: seq<Event>) {
    forall t :: 0 <= t < |trace| ==> !trace[t].Billed?
  }

  lemma NoBillsAppend(a: seq<Event>, b: seq<Event>)
    requires NoBills(a) && NoBills(b)
    ensures NoBills(a + b)
  {
  }

  lemma AttemptBillsNothing(s: Settings, o: Oracle, e: Envelope, i: nat)
    requires i < |e.to|
    ensures NoBills(Attempt(s, o, e, i).trace)
    ensures Attempt(s, o, e, i).left.Some? ==> |Attempt(s, o, e, i).left.value.to| == |e.to|
  {
  }

  lemma {:induction false} LoopBillsNothing(s: Settings, o: Oracle, e: Envelope, i: nat)
    requires i <= |e.to|
    ensures NoBills(Loop(s, o, e, i).trace)
    decreases |e.to| - i
  {
    if i < |e.to| && !e.to[i].pending {
      LoopBillsNothing(s, o, e, i + 1);
    } else if i < |e.to| {
      var a := Attempt(s, o, e, i);
      AttemptBillsNothing(s, o, e, i);
      if a.left.Some? {
        LoopBillsNothing(s, o, a.left.value, i + 1);
        NoBillsAppend(a.trace, Loop(s, o, a.left.value, i + 1).trace);
      }
    }
  }

  lemma ClosedBillsNothing(s: Settings, o: Oracle, c: Course)
    requires NoBills(c.trace)
    ensures NoBills(CloseIfLeft(s, o, c).trace)
  {
    if c.left.Some? {
      NoBillsAppend(c.trace, Close(s, o, c.left.value).trace);
    }
  }

  lemma BillThenNone(e: Envelope, x: Event, rest: seq<Event>)
    requires !e.billed && NoBills(rest)
    ensures BillsFirst(e, [x] + rest)
  {
  }

  lemma RunBillsFirst(s: Settings, o: Oracle, e: Envelope)
    ensures BillsFirst(e, Run(s, o, e).trace)
  {
    LoopBillsNothing(s, o, e, 0);
    ClosedBillsNothing(s, o, Loop(s, o, e, 0));
    ClosedBillsNothing(s, o, Course([], Some(e)));
    if NeedsBill(s, e) {
      var u := KeepBill(o, e);
      assert NoBills(u.trace);
      if u.left.Some? && u.left.value.billed {
        var x := u.left.value;
        LoopBillsNothing(s, o, x, 0);
        ClosedBillsNothing(s, o, Loop(s, o, x, 0));
        var rest := CloseIfLeft(s, o, Loop(s, o, x, 0)).trace;
        NoBillsAppend(u.trace, rest);
        assert [Billed(o.bill)] + u.trace + rest == [Billed(o.bill)] + (u.trace + rest);
        BillThenNone(e, Billed(o.bill), u.trace + rest);
      } else {
        ClosedBillsNothing(s, o, u);
        var rest := CloseIfLeft(s, o, u).trace;
        BillThenNone(e, Billed(o.bill), rest);
        if u.left.Some? {
          assert [Billed(o.bill)] + u.trace + Close(s, o, u.left.value).trace == [Billed(o.bill)] + rest;
        }
      }
    }
  }

  /** 1 for true. */
  function Unit(b: bool): nat {
    if b then 1 else 0
  }

  /** One action pays for what it does: serving a recipient for good takes it off the list on disk, and
      raising a bill marks the entry billed, unless a crash cuts the run between the two. */
  lemma ActionPays(s: Settings, e: Envelope, a: Action, i: nat)
    requires AllOk(Effects(s, e, a)) && (a.Crashed? ==> AllOk(Run(s, a.o, e).trace))
    ensures
      var trace, d := Effects(s, e, a), Next(s, Some(e), a);
      && Served(s, trace, i) + Unit(Pending(d, i)) <= Unit(Pending(Some(e), i)) + Unit(a.Crashed?)
      && Charges(trace) + Unit(Unbilled(d)) <= Unit(Unbilled(Some(e))) + Unit(a.Crashed?)
  {
    var trace := Effects(s, e, a);
    if a.Whole? || a.Crashed? {
      var whole := Run(s, a.o, e).trace;
      RunGood(s, a.o, e);
      RunBillsFirst(s, a.o, e);
      assert trace == whole[..|trace|];
      CutPays(s, e, whole, |trace|, i);
    } else {
      HandlerPays(s, e, a, i);
    }
  }

  /** The same for any cut of a good trace. */
  lemma CutPays(s: Settings, e: Envelope, whole: seq<Event>, n: nat, i: nat)
    requires n <= |whole| && Recorded(s, whole) && Versions(e, whole) && ClosedOnce(whole) && AllOk(whole)
    requires InOrder(e, whole, 0, |e.to|) && BillsFirst(e, whole)
    ensures
      var d := Disk(Some(e), whole[..n]);
      && Served(s, whole[..n], i) + Unit(Pending(d, i)) <= Unit(Pending(Some(e), i)) + Unit(n < |whole|)
      && Charges(whole[..n]) + Unit(Unbilled(d)) <= Unit(Unbilled(Some(e))) + Unit(n < |whole|)
  {
    var p := whole[..n];
    DiskDescends(e, p);
    if Served(s, p, i) > 0 {
      var t := ServedOnce(s, e, p, i, |e.to|);
      if Pending(Disk(Some(e), p), i) {
        CutAhead(s, e, whole, n, t);
      }
    }
    if Charges(p) > 0 {
      ChargedOnce(e, p);
      if n > 1 {
        RecordStays(e, p, 1, i);
      }
    }
  }

  lemma HandleDescends(e: Envelope, x: Envelope, now: int, ok: bool)
    requires Descends(e, x)
    ensures Versions(e, Handle(x, now, ok)) && NoBills(Handle(x, now, ok))
    ensures forall t :: 0 <= t < |Handle(x, now, ok)| ==> !Handle(x, now, ok)[t].Sent?
  {
  }

  lemma HandlerPays(s: Settings, e: Envelope, a: Action, i: nat)
    requires a.Acknowledge? || a.Cancel? || a.Replace?
    ensures
      var trace, d := Effects(s, e, a), Next(s, Some(e), a);
      && Served(s, trace, i) == 0 && Charges(trace) == 0
      && Unit(Pending(d, i)) <= Unit(Pending(Some(e), i))
      && Unit(Unbilled(d)) <= Unit(Unbilled(Some(e)))
  {
    var trace := Effects(s, e, a);
    assert Descends(e, Requested(e, a));
    HandleDescends(e, Requested(e, a), a.now, a.ok);
    NotServed(s, trace, i);
    NotCharged(trace);
    DiskDescends(e, trace);
  }

  // ---- whole lives ----

  /** Every write of the action succeeds. */
  ghost predicate Writes(a: Action) {
    match a
    case Whole(o) => forall k: nat :: o.writes(k)
    case Crashed(o, _) => forall k: nat :: o.writes(k)
    case _ => a.ok
  }

  lemma AllOkAppend(a: seq<Event>, b: seq<Event>)
    requires AllOk(a) && AllOk(b)
    ensures AllOk(a + b)
  {
  }

  lemma {:induction false} LoopWrites(s: Settings, o: Oracle, e: Envelope, i: nat)
    requires i <= |e.to| && forall k: nat :: o.writes(k)
    ensures AllOk(Loop(s, o, e, i).trace)
    decreases |e.to| - i
  {
    if i < |e.to| && !e.to[i].pending {
      LoopWrites(s, o, e, i + 1);
    } else if i < |e.to| {
      var a := Attempt(s, o, e, i);
      AttemptBillsNothing(s, o, e, i);
      assert AllOk(a.trace);
      if a.left.Some? {
        LoopWrites(s, o, a.left.value, i + 1);
        AllOkAppend(a.trace, Loop(s, o, a.left.value, i + 1).trace);
      }
    }
  }

  lemma ClosedWrites(s: Settings, o: Oracle, c: Course)
    requires AllOk(c.trace) && forall k: nat :: o.writes(k)
    ensures AllOk(CloseIfLeft(s, o, c).trace)
  {
    if c.left.Some? {
      AllOkAppend(c.trace, Close(s, o, c.left.value).trace);
    }
  }

  lemma RunWrites(s: Settings, o: Oracle, e: Envelope)
    requires forall k: nat :: o.writes(k)
    ensures AllOk(Run(s, o, e).trace)
  {
    LoopWrites(s, o, e, 0);
    ClosedWrites(s, o, Loop(s, o, e, 0));
    ClosedWrites(s, o, Course([], Some(e)));
    var b := Bill(o, e);
    assert AllOk(b.trace);
    ClosedWrites(s, o, b);
    if b.left.Some? {
      LoopWrites(s, o, b.left.value, 0);
      ClosedWrites(s, o, Loop(s, o, b.left.value, 0));
      AllOkAppend(b.trace, CloseIfLeft(s, o, Loop(s, o, b.left.value, 0)).trace);
    }
  }

  function Crashes(actions: seq<Action>): nat
    decreases |actions|
  {
    if actions == [] then 0 else Unit(actions[0].Crashed?) + Crashes(actions[1..])
  }

  /** Main result: over any life in which writes succeed, each recipient is served for good at most once
      plus once per crash, and the entry is charged at most once plus once per crash. */
  lemma {:induction false} LifePays(s: Settings, d: Option<Envelope>, actions: seq<Action>, i: nat)
    requires forall k :: 0 <= k < |actions| ==> Writes(actions[k])
    ensures Served(s, Log(s, d, actions), i) + Unit(Pending(After(s, d, actions), i)) <= Unit(Pending(d, i)) + Crashes(actions)
    ensures Charges(Log(s, d, actions)) + Unit(Unbilled(After(s, d, actions))) <= Unit(Unbilled(d)) + Crashes(actions)
    decreases |actions|
  {
    if actions != [] && d.Some? {
      var a, rest := actions[0], actions[1..];
      var e := d.value;
      if a.Whole? || a.Crashed? {
        RunWrites(s, a.o, e);
      }
      ActionPays(s, e, a, i);
      LifePays(s, Next(s, d, a), rest, i);
      CountsAppend(s, Effects(s, e, a), Log(s, Next(s, d, a), rest), i);
    } else if actions != [] {
      LifePays(s, d, actions[1..], i);
    }
  }

  /** Main result: whatever fails, a recipient settled on disk stays settled, is never tried again, and
      keeps its place and address. */
  lemma {:induction false} SettledStaysSettled(s: Settings, d: Option<Envelope>, actions: seq<Action>, i: nat)
    requires !Pending(d, i)
    ensures !Pending(After(s, d, actions), i)
    ensures forall t :: 0 <= t < |Log(s, d, actions)| && Log(s, d, actions)[t].Sent? ==> Log(s, d, actions)[t].i != i
    ensures After(s, d, actions).Some? ==> d.Some? && Descends(d.value, After(s, d, actions).value)
    decreases |actions|
  {
    if actions != [] && d.Some? {
      ActionSettles(s, d.value, actions[0], i);
      SettledStaysSettled(s, Next(s, d, actions[0]), actions[1..], i);
      var m, z := Next(s, d, actions[0]), After(s, d, actions);
      if z.Some? {
        DescendsTransitively(d.value, m.value, z.value);
      }
    } else if actions != [] {
      SettledStaysSettled(s, d, actions[1..], i);
    }
  }

  lemma ActionSettles(s: Settings, e: Envelope, a: Action, i: nat)
    requires !Pending(Some(e), i)
    ensures Next(s, Some(e), a).Some? ==> Descends(e, Next(s, Some(e), a).value)
    ensures forall t :: 0 <= t < |Effects(s, e, a)| && Effects(s, e, a)[t].Sent? ==> Effects(s, e, a)[t].i != i
  {
    var trace := Effects(s, e, a);
    if a.Whole? || a.Crashed? {
      var whole := Run(s, a.o, e).trace;
      RunGood(s, a.o, e);
      assert trace == whole[..|trace|];
    } else {
      assert Descends(e, Requested(e, a));
      HandleDescends(e, Requested(e, a), a.now, a.ok);
    }
    DiskDescends(e, trace);
  }
}
