/**
  The MM1 side of the MMSC: sendNotify and update_env, which push notifications to a handset, and the
  handset's fetch and response requests. A push counts as a `Sent` event for recipient 0.
 */
module Notification {
  import opened Wrappers
  import opened Text
  import opened Envelopes
  import opened Delivery
  import opened DeliveryRun

  /** Is the recipient provisioned for MMS: not yet, known not to support it, or yes. */
  datatype Support = Unprovisioned | Unsupported | Supported

  /** What sendNotify cannot decide itself: the time at its start and after the push, the provisioning
      answer, whether a report's data can be loaded, the push, and the success of its first and second write. */
  datatype Signal = Signal(now: int, later: int, support: Support, loads: bool, pushed: bool, ok: bool, okAgain: bool)

  datatype Mm1 = Mm1(maxAttempts: int, backOff: int, notifyUnprovisioned: bool)

  // Message types, in the order of the message type table.
  const SEND_REQ: int := 0
  const RETRIEVE_CONF: int := 4
  const DELIVERY_IND: int := 6
  const READ_ORIG_IND: int := 8

  predicate IsNumber(to: string) {
    var j := SearchNoCase(to, "/TYPE=PLMN");
    j > 0 && j + 10 == |to|
  }

  predicate IsIpAddress(to: string) {
    var k := SearchNoCase(to, "/TYPE=IPv");
    k > 0 && k + 10 == |to|
  }

  predicate CarriesMessage(e: Envelope) {
    e.msgType == SEND_REQ || e.msgType == RETRIEVE_CONF
  }

  predicate CarriesReport(e: Envelope) {
    e.msgType == DELIVERY_IND || e.msgType == READ_ORIG_IND
  }

  /** An update after which the envelope is let go. */
  function Finish(e: Envelope, now: int, ok: bool): seq<Event> {
    var u := Update(e, now, ok);
    u.trace + if u.left.Some? then [Freed] else []
  }

  function SettleFirst(e: Envelope): Envelope
    requires e.to != []
  {
    e.(to := e.to[0 := e.to[0].(pending := false)])
  }

  /** No retry before the expiry. */
  function Parked(e: Envelope): Envelope {
    e.(sendTime := e.expiry + 1)
  }

  /** update_env. */
  function PushCounted(s: Mm1, e: Envelope, success: bool, now: int): Envelope
    requires e.to != []
  {
    var e' := if success && !CarriesMessage(e) then SettleFirst(e) else e;
    e'.(lastTry := now, attempts := e.attempts + 1, sendTime := now + s.backOff * (e.attempts + 1))
  }

  /** do_mm1_push. */
  function Push(s: Mm1, x: Signal, e: Envelope): seq<Event>
    requires e.to != []
  {
    [Sent(0, if x.pushed then SentOk else Transient)] + Finish(PushCounted(s, e, x.pushed, x.later), x.later, x.ok)
  }

  function Deferred(s: Mm1, e: Envelope, now: int): Envelope {
    e.(lastTry := now, sendTime := now + s.backOff * (1 + e.attempts))
  }

  /** The end of sendNotify is reached with an envelope that was let go already: it is written and let go again. */
  function FinishTwice(x: Signal, e: Envelope): seq<Event> {
    var u := Update(e, x.now, x.ok);
    if u.left.None? then u.trace else u.trace + [Freed] + Finish(u.left.value, x.now, x.okAgain)
  }

  /** The provisioning answer that counts: with notify_unprovisioned on, no answer is a no. */
  function SupportFor(s: Mm1, x: Signal): Support {
    if x.support == Unprovisioned && s.notifyUnprovisioned then Unsupported else x.support
  }

  /** A handset that may be notified now. */
  predicate MayNotify(s: Mm1, x: Signal, e: Envelope) {
    && e.to != [] && !Expired(e, x.now) && e.attempts < s.maxAttempts && e.lastAccess == 0
    && (IsNumber(e.to[0].address) || IsIpAddress(e.to[0].address))
  }

  /** A message for a number that is not provisioned. */
  predicate TurnedDown(s: Mm1, x: Signal, e: Envelope)
    requires e.to != []
  {
    CarriesMessage(e) && IsNumber(e.to[0].address) && SupportFor(s, x) != Supported
  }

  /** sendNotify; with no recipient at all the queue runner lets the envelope go. */
  function Notify(s: Mm1, x: Signal, e: Envelope): seq<Event> {
    if e.to == [] then [Freed]
    else if Expired(e, x.now) then Finish(SettleFirst(e), x.now, x.ok)
    else if e.attempts >= s.maxAttempts || e.lastAccess != 0 then Finish(Parked(e), x.now, x.ok)
    else if !MayNotify(s, x, e) then Finish(SettleFirst(e), x.now, x.ok)
    else if TurnedDown(s, x, e) then
      FinishTwice(x, if SupportFor(s, x) == Unprovisioned then Deferred(s, e, x.now) else SettleFirst(e))
    else if CarriesMessage(e) || (CarriesReport(e) && x.loads) then Push(s, x, e)
    else if CarriesReport(e) then Finish(e, x.now, x.ok)
    else Finish(SettleFirst(e), x.now, x.ok)
  }

  // ---- the life of an MM1 entry ----

  datatype Action =
    | Run(x: Signal)
    | Crashed(x: Signal, k: nat)                   // the process dies after `k` events of the run
    | Fetch(now: int, ok: bool)                    // the handset fetches the message
    | Respond(retrieved: bool, now: int, ok: bool) // it answers a notification, or acknowledges
    | Touch(now: int, ok: bool)                    // it forwards the message, or stores it in its message box
    | Delete(now: int, ok: bool)                   // it deletes the message

  /** One week, for which a fetched message is kept past its expiry. */
  const WEEK: int := 3600 * 24 * 7

  /** A request of the handset. */
  predicate IsRequest(a: Action) {
    !a.Run? && !a.Crashed?
  }

  function Requested(e: Envelope, a: Action): Envelope
    requires IsRequest(a)
  {
    match a
    case Fetch(now, _) => e.(lastAccess := now, sendTime := e.expiry + WEEK)
    case Respond(retrieved, now, _) =>
      if !retrieved then e.(lastAccess := now) else if e.to != [] then SettleFirst(e) else e
    case Touch(now, _) => e.(lastAccess := now)
    case Delete(_, _) => e.(to := ClearAll(e.to))
  }

  function Effects(s: Mm1, e: Envelope, a: Action): seq<Event> {
    match a
    case Run(x) => Notify(s, x, e)
    case Crashed(x, k) => var t := Notify(s, x, e); if k < |t| then t[..k] else t
    case Fetch(now, ok) => Update(Requested(e, a), now, ok).trace + [Freed]
    case Respond(_, now, ok) => Finish(Requested(e, a), now, ok)
    case Touch(now, ok) => Finish(Requested(e, a), now, ok)
    case Delete(now, ok) => Finish(Requested(e, a), now, ok)
  }

  function Next(s: Mm1, d: Option<Envelope>, a: Action): Option<Envelope> {
    if d.None? then None else Disk(d, Effects(s, d.value, a))
  }

  function After(s: Mm1, d: Option<Envelope>, actions: seq<Action>): Option<Envelope>
    decreases |actions|
  {
    if actions == [] then d else After(s, Next(s, d, actions[0]), actions[1..])
  }

  function Log(s: Mm1, d: Option<Envelope>, actions: seq<Action>): seq<Event>
    decreases |actions|
  {
    if actions == [] || d.None? then []
    else Effects(s, d.value, actions[0]) + Log(s, Next(s, d, actions[0]), actions[1..])
  }

  // ---- pushes ----

  function Pushes(trace: seq<Event>): nat {
    if trace == [] then 0 else (if trace[0].Sent? then 1 else 0) + Pushes(trace[1..])
  }

  lemma {:induction false} PushesAppend(a: seq<Event>, b: seq<Event>)
    ensures Pushes(a + b) == Pushes(a) + Pushes(b)
  {
    if a == [] {
      assert a + b == b;
    } else {
      assert (a + b)[1..] == a[1..] + b;
      PushesAppend(a[1..], b);
    }
  }

  /** No push is allowed once the message was touched or the attempts are used up. */
  predicate Quiet(s: Mm1, e: Envelope) {
    e.lastAccess != 0 || e.attempts >= s.maxAttempts
  }

  /** Nothing in the trace is a push, and every version written keeps `attempts` and `lastAccess` at least as they were. */
  ghost predicate Silent(e: Envelope, trace: seq<Event>) {
    forall t :: 0 <= t < |trace| ==> !trace[t].Sent? && (trace[t].Wrote? ==> Older(e, trace[t].env))
  }

  /** `b` is no less tried than `a`, and touched if `a` was. */
  predicate Older(a: Envelope, b: Envelope) {
    a.attempts <= b.attempts && (a.lastAccess != 0 ==> b.lastAccess != 0)
  }

  lemma FinishIsSilent(a: Envelope, e: Envelope, now: int, ok: bool)
    requires Older(a, e)
    ensures Silent(a, Finish(e, now, ok)) && Silent(a, Update(e, now, ok).trace + [Freed])
  {
  }

  lemma FinishTwiceIsSilent(x: Signal, a: Envelope, e: Envelope)
    requires Older(a, e)
    ensures Silent(a, FinishTwice(x, e))
  {
    var u := Update(e, x.now, x.ok);
    if u.left.Some? {
      FinishIsSilent(a, u.left.value, x.now, x.okAgain);
    }
  }

  /** A run pushes if and only if the handset may be notified, the recipient was not turned down and there is something to push. */
  predicate Notifies(s: Mm1, x: Signal, e: Envelope) {
    MayNotify(s, x, e) && !TurnedDown(s, x, e) && (CarriesMessage(e) || (CarriesReport(e) && x.loads))
  }

  lemma NotifySilentUnless(s: Mm1, x: Signal, e: Envelope)
    ensures if Notifies(s, x, e) then Notify(s, x, e) == Push(s, x, e) else Silent(e, Notify(s, x, e))
  {
    if e.to != [] && !Notifies(s, x, e) {
      FinishIsSilent(e, SettleFirst(e), x.now, x.ok);
      FinishIsSilent(e, Parked(e), x.now, x.ok);
      FinishIsSilent(e, e, x.now, x.ok);
      FinishTwiceIsSilent(x, e, Deferred(s, e, x.now));
      FinishTwiceIsSilent(x, e, SettleFirst(e));
    }
  }

  lemma {:induction false} SilentPushes(e: Envelope, trace: seq<Event>)
    requires Silent(e, trace)
    ensures Pushes(trace) == 0
  {
    if trace != [] {
      SilentPushes(e, trace[1..]);
    }
  }

  /** After a silent trace the file is gone, or no less tried and touched than before. */
  lemma {:induction false} SilentDisk(e: Envelope, d: Envelope, trace: seq<Event>)
    requires Silent(e, trace) && Older(e, d)
    ensures Disk(Some(d), trace).Some? ==> Older(e, Disk(Some(d), trace).value)
    decreases |trace|
  {
    if trace != [] {
      SilentDisk(e, d, trace[..|trace| - 1]);
    }
  }

  /** A push is the first thing in its run, and counted by the very next event. */
  lemma PushIsCounted(s: Mm1, x: Signal, e: Envelope)
    requires e.to != []
    ensures var t := Push(s, x, e);
            && 2 <= |t| <= 3 && t[0].Sent? && Pushes(t) == 1
            && (t[1].Removed? || (t[1].Wrote? && t[1].env.attempts == e.attempts + 1 && t[1].env.lastAccess == e.lastAccess && t[1].ok == x.ok))
            && (|t| == 3 ==> t[2] == Freed)
  {
    var n := PushCounted(s, e, x.pushed, x.later);
    var f := Finish(n, x.later, x.ok);
    FinishIsSilent(n, n, x.later, x.ok);
    SilentPushes(n, f);
    assert ([Sent(0, if x.pushed then SentOk else Transient)] + f)[1..] == f;
  }

  /** A touched entry stays touched and is never pushed for again, whatever is written or crashes. */
  lemma TouchedStaysSilent(s: Mm1, e: Envelope, a: Action)
    requires e.lastAccess != 0 && (IsRequest(a) ==> a.now != 0)
    ensures Silent(e, Effects(s, e, a))
  {
    if a.Run? || a.Crashed? {
      NotifySilentUnless(s, a.x, e);
    } else {
      FinishIsSilent(e, Requested(e, a), a.now, a.ok);
    }
  }

  ghost predicate Timed(actions: seq<Action>) {
    forall i :: 0 <= i < |actions| && IsRequest(actions[i]) ==> actions[i].now != 0
  }

  /** Main result: once a fetch, a forward, a store, or any answer but a retrieval is on record, no notification is
      pushed any more, whatever happens to the entry after that. */
  lemma {:induction false} TouchedIsNeverPushed(s: Mm1, d: Option<Envelope>, actions: seq<Action>)
    requires Timed(actions) && (d.Some? ==> d.value.lastAccess != 0)
    ensures Pushes(Log(s, d, actions)) == 0
    decreases |actions|
  {
    if actions != [] && d.Some? {
      var e := d.value;
      TouchedStaysSilent(s, e, actions[0]);
      SilentPushes(e, Effects(s, e, actions[0]));
      SilentDisk(e, e, Effects(s, e, actions[0]));
      TouchedIsNeverPushed(s, Next(s, d, actions[0]), actions[1..]);
      PushesAppend(Effects(s, e, actions[0]), Log(s, Next(s, d, actions[0]), actions[1..]));
    }
  }

  // ---- how many pushes ----

  ghost predicate AllOk(trace: seq<Event>) {
    forall t :: 0 <= t < |trace| && trace[t].Wrote? ==> trace[t].ok
  }

  /** Attempts left. */
  function Budget(s: Mm1, d: Option<Envelope>): nat {
    if d.None? || d.value.attempts >= s.maxAttempts then 0 else s.maxAttempts - d.value.attempts
  }

  function Crashes(actions: seq<Action>): nat {
    if actions == [] then 0 else (if actions[0].Crashed? then 1 else 0) + Crashes(actions[1..])
  }

  /** All writes of the whole run succeed, also of a run that is cut short. */
  ghost predicate WritesOk(s: Mm1, e: Envelope, a: Action) {
    AllOk(match a case Run(x) => Notify(s, x, e) case Crashed(x, _) => Notify(s, x, e) case _ => Effects(s, e, a))
  }

  lemma SilentPays(s: Mm1, e: Envelope, trace: seq<Event>)
    requires Silent(e, trace)
    ensures Pushes(trace) == 0 && Budget(s, Disk(Some(e), trace)) <= Budget(s, Some(e))
  {
    SilentPushes(e, trace);
    SilentDisk(e, e, trace);
  }

  /** A push, cut anywhere: it is paid for once its record is written. */
  lemma CutPushPays(s: Mm1, x: Signal, e: Envelope, k: nat)
    requires Notifies(s, x, e) && AllOk(Push(s, x, e)) && k <= |Push(s, x, e)|
    ensures var t := Push(s, x, e)[..k];
            Pushes(t) + Budget(s, Disk(Some(e), t)) <= Budget(s, Some(e)) + if k == 1 then 1 else 0
  {
    var t := Push(s, x, e);
    PushIsCounted(s, x, e);
    PushesAppend(t[..k], t[k..]);
    assert t[..k] + t[k..] == t;
    if k >= 2 {
      assert t[..k][..k - 1] == t[..k - 1] && t[..2][..1] == t[..1];
      assert Disk(Some(e), t[..2]) == (if t[1].Removed? then None else Some(t[1].env));
    } else if k == 1 {
      assert t[..1][..0] == [] && Disk(Some(e), t[..1]) == Some(e);
    } else {
      assert t[..0] == [];
    }
  }

  lemma ActionPays(s: Mm1, e: Envelope, a: Action)
    requires WritesOk(s, e, a)
    ensures Pushes(Effects(s, e, a)) + Budget(s, Next(s, Some(e), a)) <= Budget(s, Some(e)) + if a.Crashed? then 1 else 0
  {
    var trace := Effects(s, e, a);
    if a.Run? || a.Crashed? {
      NotifySilentUnless(s, a.x, e);
      var whole := Notify(s, a.x, e);
      assert trace == whole[..|trace|];
      if Notifies(s, a.x, e) {
        PushIsCounted(s, a.x, e);
        CutPushPays(s, a.x, e, |trace|);
      } else {
        SilentPays(s, e, trace);
      }
    } else {
      FinishIsSilent(Untouched(e), Requested(e, a), a.now, a.ok);
      SilentPays(s, Untouched(e), trace);
      SameBudget(s, e, trace);
    }
  }

  function Untouched(e: Envelope): Envelope {
    e.(lastAccess := 0)
  }

  lemma {:induction false} SameBudget(s: Mm1, e: Envelope, trace: seq<Event>)
    ensures Budget(s, Disk(Some(e), trace)) == Budget(s, Disk(Some(Untouched(e)), trace))
    decreases |trace|
  {
    if trace != [] {
      SameBudget(s, e, trace[..|trace| - 1]);
    }
  }

  ghost predicate AllWritesOk(s: Mm1, d: Option<Envelope>, actions: seq<Action>)
    decreases |actions|
  {
    actions != [] && d.Some? ==> WritesOk(s, d.value, actions[0]) && AllWritesOk(s, Next(s, d, actions[0]), actions[1..])
  }

  /** Main result: over the whole life of an entry the pushes stay within the attempts it has left, plus one
      for every crash that comes between a push and its record. */
  lemma {:induction false} PushesAreBounded(s: Mm1, d: Option<Envelope>, actions: seq<Action>)
    requires AllWritesOk(s, d, actions)
    ensures Pushes(Log(s, d, actions)) + Budget(s, After(s, d, actions)) <= Budget(s, d) + Crashes(actions)
    decreases |actions|
  {
    if actions != [] && d.Some? {
      var d' := Next(s, d, actions[0]);
      ActionPays(s, d.value, actions[0]);
      PushesAreBounded(s, d', actions[1..]);
      PushesAppend(Effects(s, d.value, actions[0]), Log(s, d', actions[1..]));
    } else if actions != [] {
      PushesAreBounded(s, d, actions[1..]);
    }
  }

  // ---- giving the envelope back ----

  /** The entry is still there after a run that turned its recipient down. */
  predicate OutlivesRefusal(s: Mm1, x: Signal, e: Envelope) {
    && MayNotify(s, x, e) && TurnedDown(s, x, e)
    && HasPending(if SupportFor(s, x) == Unprovisioned then e.to else SettleFirst(e).to)
  }

  lemma FinishClosesOnce(e: Envelope, now: int, ok: bool)
    ensures ClosedOnce(Finish(e, now, ok))
  {
    var u := Update(e, now, ok);
    if u.left.Some? {
      assert (u.trace + [Freed])[..1] == u.trace;
    } else {
      assert u.trace[..0] == [];
    }
  }

  lemma TwiceClosesOnceIff(x: Signal, e: Envelope)
    ensures ClosedOnce(FinishTwice(x, e)) <==> !HasPending(e.to)
  {
    var u := Update(e, x.now, x.ok);
    var t := FinishTwice(x, e);
    if u.left.Some? {
      assert t[1] == Freed && t[..|t| - 1][1] == Freed;
    } else {
      assert t[..0] == [];
    }
  }

  /** The envelope is given back exactly once, last of all, unless the recipient is not provisioned and the
      entry outlives the run: then it is let go before the end, and used again. */
  lemma DisposedOnceIff(s: Mm1, x: Signal, e: Envelope)
    ensures ClosedOnce(Notify(s, x, e)) <==> !OutlivesRefusal(s, x, e)
  {
    var t := Notify(s, x, e);
    if e.to == [] {
      assert t[..0] == [];
    } else if MayNotify(s, x, e) && TurnedDown(s, x, e) {
      TwiceClosesOnceIff(x, Deferred(s, e, x.now));
      TwiceClosesOnceIff(x, SettleFirst(e));
    } else if Notifies(s, x, e) {
      var f := Finish(PushCounted(s, e, x.pushed, x.later), x.later, x.ok);
      FinishClosesOnce(PushCounted(s, e, x.pushed, x.later), x.later, x.ok);
      OpenAppend([t[0]], f);
    } else {
      FinishClosesOnce(SettleFirst(e), x.now, x.ok);
      FinishClosesOnce(Parked(e), x.now, x.ok);
      FinishClosesOnce(e, x.now, x.ok);
    }
  }

  /** The fetch handler lets the envelope go at its end whatever the update answered: once, exactly when a
      recipient is pending, and a second time if the update has removed the entry. */
  lemma FetchDisposesOnceIff(s: Mm1, e: Envelope, now: int, ok: bool)
    ensures ClosedOnce(Effects(s, e, Fetch(now, ok))) <==> HasPending(e.to)
  {
    var u := Update(Requested(e, Fetch(now, ok)), now, ok);
    var t := u.trace + [Freed];
    assert t[..|t| - 1] == u.trace && t[1] == Freed;
    assert u.trace[0].Removed? <==> !HasPending(e.to);
  }

  // ---- an entry keeps a pending recipient ----

  /** Every version that is written has a pending recipient. */
  ghost predicate WritesPending(trace: seq<Event>) {
    forall t :: 0 <= t < |trace| && trace[t].Wrote? ==> HasPending(trace[t].env.to)
  }

  lemma FinishWritesPending(e: Envelope, now: int, ok: bool)
    ensures WritesPending(Finish(e, now, ok)) && WritesPending(Update(e, now, ok).trace + [Freed])
  {
  }

  lemma FinishTwiceWritesPending(x: Signal, e: Envelope)
    ensures WritesPending(FinishTwice(x, e))
  {
    var u := Update(e, x.now, x.ok);
    if u.left.Some? {
      FinishWritesPending(u.left.value, x.now, x.okAgain);
    }
  }

  lemma NotifyWritesPending(s: Mm1, x: Signal, e: Envelope)
    ensures WritesPending(Notify(s, x, e))
  {
    if e.to != [] {
      FinishWritesPending(SettleFirst(e), x.now, x.ok);
      FinishWritesPending(Parked(e), x.now, x.ok);
      FinishWritesPending(e, x.now, x.ok);
      FinishTwiceWritesPending(x, Deferred(s, e, x.now));
      FinishTwiceWritesPending(x, SettleFirst(e));
      FinishWritesPending(PushCounted(s, e, x.pushed, x.later), x.later, x.ok);
    }
  }

  lemma EffectsWritePending(s: Mm1, e: Envelope, a: Action)
    ensures WritesPending(Effects(s, e, a))
  {
    if IsRequest(a) {
      FinishWritesPending(Requested(e, a), a.now, a.ok);
    } else {
      NotifyWritesPending(s, a.x, e);
    }
  }

  lemma {:induction false} DiskPending(e: Envelope, trace: seq<Event>)
    requires HasPending(e.to) && WritesPending(trace)
    ensures Disk(Some(e), trace).Some? ==> HasPending(Disk(Some(e), trace).value.to)
    decreases |trace|
  {
    if trace != [] {
      DiskPending(e, trace[..|trace| - 1]);
    }
  }

  /** An entry that starts with a pending recipient has one for as long as it exists. */
  lemma {:induction false} StaysPending(s: Mm1, d: Option<Envelope>, actions: seq<Action>)
    requires d.Some? ==> HasPending(d.value.to)
    ensures After(s, d, actions).Some? ==> HasPending(After(s, d, actions).value.to)
    decreases |actions|
  {
    if actions != [] {
      if d.Some? {
        EffectsWritePending(s, d.value, actions[0]);
        DiskPending(d.value, Effects(s, d.value, actions[0]));
      }
      StaysPending(s, Next(s, d, actions[0]), actions[1..]);
    }
  }

  /** Main result: in every life of an entry that was created for somebody, after any runs, crashes, requests and
      failed writes, each request gives the envelope back exactly once, last of all. */
  lemma RequestsDisposeOnce(s: Mm1, e: Envelope, actions: seq<Action>, a: Action)
    requires HasPending(e.to) && IsRequest(a)
    ensures var d := After(s, Some(e), actions); d.Some? ==> ClosedOnce(Effects(s, d.value, a))
  {
    var d := After(s, Some(e), actions);
    StaysPending(s, Some(e), actions);
    if d.Some? {
      match a
      case Fetch(now, ok) => FetchDisposesOnceIff(s, d.value, now, ok);
      case Respond(_, now, ok) => FinishClosesOnce(Requested(d.value, a), now, ok);
      case Touch(now, ok) => FinishClosesOnce(Requested(d.value, a), now, ok);
      case Delete(now, ok) => FinishClosesOnce(Requested(d.value, a), now, ok);
    }
  }

  // ---- when an entry ends ----

  predicate OthersPending(e: Envelope) {
    exists i :: 1 <= i < |e.to| && e.to[i].pending
  }

  /** A run past the expiry removes the entry exactly when no recipient but the first is pending, for it settles
      no other; and a failed write cannot bring an entry back. */
  lemma ExpiredEntryEndsIff(s: Mm1, x: Signal, e: Envelope)
    requires Expired(e, x.now)
    ensures Next(s, Some(e), Run(x)) == None <==> e.to != [] && !OthersPending(e)
  {
    if e.to == [] {
      assert Disk(Some(e), [Freed]) == Some(e) by {
        assert [Freed][..0] == [];
      }
    } else {
      var to := SettleFirst(e).to;
      assert forall i :: 1 <= i < |to| ==> to[i] == e.to[i];
      assert !to[0].pending;
      FinishEndsIff(e, SettleFirst(e), x.now, x.ok);
    }
  }

  lemma FinishEndsIff(d: Envelope, e: Envelope, now: int, ok: bool)
    ensures Disk(Some(d), Finish(e, now, ok)) == None <==> !HasPending(e.to)
  {
    var t, u := Finish(e, now, ok), Update(e, now, ok);
    if u.left.Some? {
      assert t == [Wrote(u.left.value, ok), Freed];
      WriteLeaves(d, u.left.value, ok);
    } else {
      assert t == [Removed];
    }
  }

  /** A write, successful or not, leaves an entry. */
  lemma WriteLeaves(d: Envelope, e: Envelope, ok: bool)
    ensures Disk(Some(d), [Wrote(e, ok), Freed]).Some?
  {
    var w := [Wrote(e, ok)];
    assert [Wrote(e, ok), Freed][..1] == w && w[..0] == [];
    assert Disk(Some(d), w[..0]) == Some(d);
    assert Disk(Some(d), w).Some?;
  }

  /** The delete request always ends the entry. */
  lemma DeleteEnds(s: Mm1, e: Envelope, now: int, ok: bool)
    ensures Next(s, Some(e), Delete(now, ok)) == None
  {
    FinishEndsIff(e, Requested(e, Delete(now, ok)), now, ok);
  }
}
