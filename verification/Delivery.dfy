/**
  One run of a queue worker over one entry: sendMsg of the MMSC's global queue and of the mmsbox. A run
  leaves a trace of what it did outside its own memory; a crash is a trace cut short.
 */
module Delivery {
  import opened Wrappers
  import opened Envelopes

  /** What a transport reports for one recipient. */
  datatype Result = SentOk | Queued | Transient | Fatal

  /** The two delivery loops differ in billing, in loading the message, and in what Queued means. */
  datatype Gateway = Mmsc | MmsBox

  datatype Settings = Settings(gateway: Gateway, sendReq: int, maxAttempts: int, backOff: int)

  /** Everything a run cannot decide itself: the billing module's answer, whether the message can be
      loaded, the transports' answers, the clock at each reading and whether each write succeeds.
      Reading 0 is taken when billing, reading i + 1 for recipient i, and the last at the end. */
  datatype Oracle = Oracle(bill: real, loads: bool, result: nat -> Result, clock: nat -> int, writes: nat -> bool)

  /** What a run does to the world. */
  datatype Event =
    | Billed(amount: real)
    | Sent(i: nat, result: Result)
    | Wrote(env: Envelope, ok: bool)
    | Removed
    | Freed

  /** A run's trace, and the envelope still in hand unless it was removed and freed. */
  datatype Course = Course(trace: seq<Event>, left: Option<Envelope>)

  predicate HasPending(to: seq<Recipient>) {
    exists i :: 0 <= i < |to| && to[i].pending
  }

  function ClearAll(to: seq<Recipient>): (r: seq<Recipient>)
    ensures |r| == |to|
  {
    seq(|to|, i requires 0 <= i < |to| => to[i].(pending := false))
  }

  /** mms_queue_update: an entry without pending recipients is removed and freed, any other is written. */
  function Update(e: Envelope, now: int, ok: bool): Course {
    var e' := if e.expiry <= 0 then e.(expiry := now + DEFAULT_EXPIRE) else e;
    if HasPending(e'.to) then Course([Wrote(e', ok)], Some(e')) else Course([Removed], None)
  }

  predicate Settles(s: Settings, r: Result) {
    r == SentOk || r == Fatal || (r == Queued && s.gateway == MmsBox)
  }

  predicate Expired(e: Envelope, now: int) {
    e.expiry != 0 && e.expiry < now
  }

  /** Delivery is attempted only before the expiry and below the attempt limit. */
  predicate MayTry(s: Settings, e: Envelope, now: int) {
    !Expired(e, now) && e.attempts < s.maxAttempts
  }

  function ResultFor(s: Settings, o: Oracle, e: Envelope, i: nat): Result {
    if MayTry(s, e, o.clock(i + 1)) then o.result(i) else Fatal
  }

  /** The envelope after recipient `i` has been dealt with. */
  function Dealt(s: Settings, o: Oracle, e: Envelope, i: nat): Envelope
    requires i < |e.to|
  {
    var pending := !Settles(s, ResultFor(s, o, e, i));
    e.(to := e.to[i := e.to[i].(pending := pending)], lastTry := o.clock(i + 1))
  }

  /** Trying recipient `i`, if that is still allowed, and recording the outcome. */
  function Attempt(s: Settings, o: Oracle, e: Envelope, i: nat): Course
    requires i < |e.to|
  {
    var sent := if MayTry(s, e, o.clock(i + 1)) then [Sent(i, o.result(i))] else [];
    var u := Update(Dealt(s, o, e, i), o.clock(i + 1), o.writes(i + 1));
    Course(sent + u.trace, u.left)
  }

  /** The recipient loop from recipient `i` on. */
  function Loop(s: Settings, o: Oracle, e: Envelope, i: nat): Course
    requires i <= |e.to|
    decreases |e.to| - i
  {
    if i == |e.to| then Course([], Some(e))
    else if !e.to[i].pending then Loop(s, o, e, i + 1)
    else
      var a := Attempt(s, o, e, i);
      if a.left.None? then a
      else
        var rest := Loop(s, o, a.left.value, i + 1);
        Course(a.trace + rest.trace, rest.left)
  }

  /** The attempt counted and the next one set back. */
  function Counted(s: Settings, e: Envelope, now: int): Envelope {
    e.(lastTry := now, attempts := e.attempts + 1, sendTime := now + s.backOff * (e.attempts + 1))
  }

  /** The end of a run: count the attempt, write, let go. */
  function Close(s: Settings, o: Oracle, e: Envelope): Course {
    var now := o.clock(|e.to| + 1);
    var u := Update(Counted(s, e, now), now, o.writes(|e.to| + 1));
    Course(u.trace + if u.left.Some? then [Freed] else [], None)
  }

  function CloseIfLeft(s: Settings, o: Oracle, c: Course): Course {
    match c.left
    case None => c
    case Some(e) => Course(c.trace + Close(s, o, e).trace, None)
  }

  predicate NeedsBill(s: Settings, e: Envelope) {
    s.gateway == Mmsc && e.msgType == s.sendReq && !e.billed
  }

  /** Billing: -1 cancels the entry, a non-negative amount is recorded, anything else changes nothing. */
  function AfterBill(bill: real, e: Envelope): Envelope {
    if bill == -1.0 then e.(to := ClearAll(e.to))
    else if bill >= 0.0 then e.(billed := true, amount := bill)
    else e
  }

  /** The entry is written after billing unless the answer was below -1. */
  function KeepBill(o: Oracle, e: Envelope): Course {
    if o.bill >= -1.0 then Update(AfterBill(o.bill, e), o.clock(0), o.writes(0)) else Course([], Some(e))
  }

  function Bill(o: Oracle, e: Envelope): Course {
    var u := KeepBill(o, e);
    Course([Billed(o.bill)] + u.trace, u.left)
  }

  /** A whole run over an envelope read from the queue. */
  function Run(s: Settings, o: Oracle, e: Envelope): Course {
    if NeedsBill(s, e) then
      var b := Bill(o, e);
      if b.left.None? || !b.left.value.billed then CloseIfLeft(s, o, b)
      else
        var l := CloseIfLeft(s, o, Loop(s, o, b.left.value, 0));
        Course(b.trace + l.trace, None)
    else if s.gateway == MmsBox && !o.loads then CloseIfLeft(s, o, Course([], Some(e)))
    else CloseIfLeft(s, o, Loop(s, o, e, 0))
  }

  // ---- the file behind the trace ----

  /** The queue file's envelope after a trace: the last one written, nothing once removed. */
  function Disk(e: Option<Envelope>, trace: seq<Event>): Option<Envelope>
    decreases |trace|
  {
    if trace == [] then e
    else
      var last := trace[|trace| - 1];
      match last
      case Wrote(w, true) => Some(w)
      case Removed => None
      case _ => Disk(e, trace[..|trace| - 1])
  }
}
