/** sendNotify, update_env and do_mm1_push as they are written, over an envelope updated in place. */
module NotificationWorker {
  import opened Wrappers
  import opened Text
  import opened Envelopes
  import opened Delivery
  import opened DeliveryWorker
  import opened Notification

  /** Updates the queue and lets the envelope go if it is still there. */
  method UpdateAndFree(q: QueueEntry, now: int, ok: bool) returns (gone: bool)
    modifies q
    ensures q.trace == old(q.trace) + Finish(old(q.env), now, ok)
    ensures gone == Update(old(q.env), now, ok).left.None? && (!gone ==> q.env == Update(old(q.env), now, ok).left.value)
  {
    gone := q.QueueUpdate(now, ok);
    if !gone {
      q.trace := q.trace + [Freed];
    }
  }

  /** No more processing for the first recipient. */
  method Settle(q: QueueEntry)
    requires q.env.to != []
    modifies q`env
    ensures q.env == SettleFirst(old(q.env))
  {
    q.env := q.env.(to := q.env.to[0 := q.env.to[0].(pending := false)]);
  }

  /** update_env. */
  method UpdateEnv(s: Mm1, q: QueueEntry, success: bool, now: int, ok: bool) returns (gone: bool)
    requires q.env.to != []
    modifies q
    ensures var e := PushCounted(s, old(q.env), success, now);
            && q.trace == old(q.trace) + Update(e, now, ok).trace
            && gone == Update(e, now, ok).left.None?
  {
    if success && q.env.msgType != SEND_REQ && q.env.msgType != RETRIEVE_CONF {
      Settle(q);
    }
    q.env := q.env.(lastTry := now);
    q.env := q.env.(attempts := q.env.attempts + 1);
    q.env := q.env.(sendTime := now + s.backOff * q.env.attempts);
    gone := q.QueueUpdate(now, ok);
  }

  /** do_mm1_push. */
  method DoPush(s: Mm1, x: Signal, q: QueueEntry)
    requires q.env.to != []
    modifies q
    ensures q.trace == old(q.trace) + Push(s, x, old(q.env))
  {
    q.trace := q.trace + [Sent(0, if x.pushed then SentOk else Transient)];
    var gone := UpdateEnv(s, q, x.pushed, x.later, x.ok);
    if !gone {
      q.trace := q.trace + [Freed];
    }
  }

  /** A recipient that is not provisioned. The label at the end of sendNotify is reached with the envelope's
      pointer intact unless the entry is gone. */
  method TurnDown(s: Mm1, x: Signal, q: QueueEntry)
    requires q.env.to != []
    modifies q
    ensures q.trace == old(q.trace)
                     + FinishTwice(x, if SupportFor(s, x) == Unprovisioned then Deferred(s, old(q.env), x.now) else SettleFirst(old(q.env)))
  {
    if SupportFor(s, x) == Unprovisioned {
      q.env := q.env.(lastTry := x.now, sendTime := x.now + s.backOff * (1 + q.env.attempts));
    } else {
      Settle(q);
    }
    FreeTwice(q, x);
  }

  method FreeTwice(q: QueueEntry, x: Signal)
    modifies q
    ensures q.trace == old(q.trace) + FinishTwice(x, old(q.env))
  {
    var gone := UpdateAndFree(q, x.now, x.ok);
    if !gone {
      ghost var first, e := q.trace, q.env;
      gone := UpdateAndFree(q, x.now, x.okAgain);
      Associate(old(q.trace), Finish(old(q.env), x.now, x.ok), Finish(e, x.now, x.okAgain));
    }
  }

  lemma Associate(a: seq<Event>, b: seq<Event>, c: seq<Event>)
    ensures a + b + c == a + (b + c)
  {
  }

  /** The last steps: after a fatal error the recipient is done with. */
  method Conclude(q: QueueEntry, fatal: bool, now: int, ok: bool)
    requires q.env.to != []
    modifies q
    ensures q.trace == old(q.trace) + Finish(if fatal then SettleFirst(old(q.env)) else old(q.env), now, ok)
  {
    if fatal {
      Settle(q);
    }
    var gone := UpdateAndFree(q, now, ok);
  }

  method SendNotify(s: Mm1, x: Signal, q: QueueEntry)
    modifies q
    ensures q.trace == old(q.trace) + Notify(s, x, old(q.env))
  {
    if q.env.to == [] {
      q.trace := q.trace + [Freed];
    } else if q.env.expiry != 0 && q.env.expiry < x.now {
      Conclude(q, true, x.now, x.ok);
    } else if q.env.attempts >= s.maxAttempts || q.env.lastAccess != 0 {
      q.env := q.env.(sendTime := q.env.expiry + 1);
      Conclude(q, false, x.now, x.ok);
    } else {
      Contact(s, x, q);
    }
  }

  /** The part of sendNotify that may push. */
  method Contact(s: Mm1, x: Signal, q: QueueEntry)
    requires q.env.to != [] && !Expired(q.env, x.now) && q.env.attempts < s.maxAttempts && q.env.lastAccess == 0
    modifies q
    ensures q.trace == old(q.trace) + Notify(s, x, old(q.env))
  {
    var to := q.env.to[0].address;
    if !IsNumber(to) && !IsIpAddress(to) {
      Conclude(q, true, x.now, x.ok);
    } else if CarriesMessage(q.env) {
      if IsNumber(to) && SupportFor(s, x) != Supported {
        TurnDown(s, x, q);
      } else {
        DoPush(s, x, q);
      }
    } else if CarriesReport(q.env) {
      if x.loads {
        DoPush(s, x, q);
      } else {
        Conclude(q, false, x.now, x.ok);
      }
    } else {
      Conclude(q, true, x.now, x.ok);
    }
  }
}
