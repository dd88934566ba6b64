/**
  The delivery loop as it is written: an envelope updated in place, recipient by recipient, with the
  queue file rewritten after each. `Delivery.Run` says what it does.
 */
module DeliveryWorker {
  import opened Wrappers
  import opened Envelopes
  import opened Delivery
  import opened DeliveryRun
  import opened DeliveryBounds

  /** The envelope in memory, and what the worker has done to the world, the queue file included:
      `Disk(Some(e), trace)` is the file's content if it held `e` at first. */
  class QueueEntry {
    var env: Envelope
    var trace: seq<Event>

    constructor (e: Envelope)
      ensures env == e && trace == []
    {
      env := e;
      trace := [];
    }

    /** mms_queue_update: gone if no recipient is pending, else rewritten. */
    method QueueUpdate(now: int, ok: bool) returns (gone: bool)
      modifies this
      ensures var u := Update(old(env), now, ok);
              && trace == old(trace) + u.trace
              && gone == u.left.None?
              && (!gone ==> env == u.left.value)
    {
      if env.expiry <= 0 {
        env := env.(expiry := now + DEFAULT_EXPIRE);
      }
      var i := 0;
      while i < |env.to| && !env.to[i].pending
        invariant 0 <= i <= |env.to| && forall j :: 0 <= j < i ==> !env.to[j].pending
      {
        i := i + 1;
      }
      gone := i == |env.to|;
      trace := trace + [if gone then Removed else Wrote(env, ok)];
    }

    /** The expiry and attempt checks, and the transport if they pass. */
    method Try(s: Settings, o: Oracle, i: nat, now: int) returns (res: Result)
      requires now == o.clock(i + 1)
      modifies this`trace
      ensures res == ResultFor(s, o, env, i)
      ensures trace == old(trace) + if MayTry(s, env, now) then [Sent(i, o.result(i))] else []
    {
      if env.expiry != 0 && env.expiry < now {
        res := Fatal;
      } else if env.attempts >= s.maxAttempts {
        res := Fatal;
      } else {
        res := o.result(i);
        trace := trace + [Sent(i, res)];
      }
    }

    /** One recipient: the attempt, the mark in the envelope, the record. */
    method Serve(s: Settings, o: Oracle, i: nat) returns (gone: bool)
      requires i < |env.to| && env.to[i].pending
      modifies this
      ensures var a := Attempt(s, o, old(env), i);
              && trace == old(trace) + a.trace
              && gone == a.left.None?
              && (!gone ==> env == a.left.value)
    {
      var now := o.clock(i + 1);
      var res := Try(s, o, i, now);
      var pending := !Settles(s, res);
      env := env.(to := env.to[i := env.to[i].(pending := pending)], lastTry := now);
      gone := QueueUpdate(now, o.writes(i + 1));
    }

    /** The tail of the run at label done2. */
    method Finish(s: Settings, o: Oracle)
      modifies this
      ensures var c := Close(s, o, old(env));
              trace == old(trace) + c.trace
    {
      var now := o.clock(|env.to| + 1);
      var slot := |env.to| + 1;
      env := env.(lastTry := now);
      env := env.(attempts := env.attempts + 1);
      env := env.(sendTime := env.lastTry + s.backOff * env.attempts);
      var gone := QueueUpdate(now, o.writes(slot));
      if !gone {
        trace := trace + [Freed];
      }
    }

    /** One turn of the recipient loop. `done` is what the loop has done to the world so far. */
    method ServeNext(s: Settings, o: Oracle, i: nat, ghost start: seq<Event>, ghost done: seq<Event>, ghost all: Course)
      returns (gone: bool, ghost done': seq<Event>)
      requires i < |env.to| && trace == start + done && all == Joined(done, Loop(s, o, env, i))
      modifies this
      ensures trace == start + done'
      ensures gone ==> all == Course(done', None)
      ensures !gone ==> |env.to| == |old(env.to)| && all == Joined(done', Loop(s, o, env, i + 1))
    {
      gone, done' := false, done;
      if env.to[i].pending {
        ghost var a := Attempt(s, o, env, i);
        LoopUnfolds(s, o, env, i, done);
        gone := Serve(s, o, i);
        done' := done + a.trace;
        assert start + done + a.trace == start + done';
      }
    }

    /** The recipient loop. */
    method ServeAll(s: Settings, o: Oracle) returns (gone: bool)
      modifies this
      ensures var l := Loop(s, o, old(env), 0);
              && trace == old(trace) + l.trace
              && gone == l.left.None?
              && (!gone ==> env == l.left.value)
    {
      var i := 0;
      gone := false;
      ghost var done: seq<Event> := [];
      ghost var all := Loop(s, o, env, 0);
      while i < |env.to| && !gone
        invariant !gone ==> i <= |env.to|
        invariant trace == old(trace) + done
        invariant all == if gone then Course(done, None) else Joined(done, Loop(s, o, env, i))
        decreases if gone then 0 else 1, |env.to| - i
      {
        gone, done := ServeNext(s, o, i, old(trace), done, all);
        i := i + 1;
      }
    }

    /** Billing; says whether the run goes on to the recipients. */
    method Charge(o: Oracle) returns (gone: bool)
      modifies this
      ensures var b := Bill(o, old(env));
              && trace == old(trace) + b.trace
              && gone == b.left.None?
              && (!gone ==> env == b.left.value)
    {
      trace := trace + [Billed(o.bill)];
      gone := false;
      if o.bill == -1.0 {
        var i := 0;
        ghost var to := env.to;
        while i < |env.to|
          modifies this`env
          invariant 0 <= i <= |env.to| == |to|
          invariant env == old(env).(to := env.to)
          invariant forall j :: 0 <= j < |to| ==> env.to[j] == if j < i then to[j].(pending := false) else to[j]
        {
          env := env.(to := env.to[i := env.to[i].(pending := false)]);
          i := i + 1;
        }
        assert env.to == ClearAll(to);
      } else if o.bill >= 0.0 {
        env := env.(billed := true, amount := o.bill);
      }
      assert env == AfterBill(o.bill, old(env));
      if o.bill >= -1.0 {
        gone := QueueUpdate(o.clock(0), o.writes(0));
      }
    }

    /** The recipients, and the end of the run if the entry is still there. */
    method ServeAndFinish(s: Settings, o: Oracle)
      modifies this
      ensures trace == old(trace) + CloseIfLeft(s, o, Loop(s, o, old(env), 0)).trace
    {
      ghost var l := Loop(s, o, env, 0);
      var gone := ServeAll(s, o);
      if !gone {
        Finish(s, o);
        assert old(trace) + l.trace + Close(s, o, l.left.value).trace == old(trace) + (l.trace + Close(s, o, l.left.value).trace);
      }
    }

    /** sendMsg of the MMSC for an entry that has to be billed. */
    method SendBilled(s: Settings, o: Oracle)
      requires NeedsBill(s, env)
      modifies this
      ensures trace == old(trace) + Run(s, o, old(env)).trace
    {
      ghost var b := Bill(o, env);
      var gone := Charge(o);
      if gone {
        return;
      }
      if !env.billed {
        Finish(s, o);
        assert old(trace) + b.trace + Close(s, o, b.left.value).trace == old(trace) + (b.trace + Close(s, o, b.left.value).trace);
        return;
      }
      ghost var l := CloseIfLeft(s, o, Loop(s, o, env, 0));
      ServeAndFinish(s, o);
      assert old(trace) + b.trace + l.trace == old(trace) + (b.trace + l.trace);
    }

    /** sendMsg. */
    method SendMsg(s: Settings, o: Oracle)
      modifies this
      ensures trace == old(trace) + Run(s, o, old(env)).trace
    {
      if NeedsBill(s, env) {
        SendBilled(s, o);
      } else if s.gateway == MmsBox && !o.loads {
        assert [] + Close(s, o, env).trace == Close(s, o, env).trace;
        Finish(s, o);
      } else {
        ServeAndFinish(s, o);
      }
    }
  }

  /** A course with events before it. */
  ghost function Joined(done: seq<Event>, c: Course): Course {
    Course(done + c.trace, c.left)
  }

  lemma LoopUnfolds(s: Settings, o: Oracle, e: Envelope, i: nat, done: seq<Event>)
    requires i < |e.to| && e.to[i].pending
    ensures
      var a := Attempt(s, o, e, i);
      && (a.left.Some? ==> |a.left.value.to| == |e.to|)
      && Joined(done, Loop(s, o, e, i))
         == if a.left.None? then Course(done + a.trace, None) else Joined(done + a.trace, Loop(s, o, a.left.value, i + 1))
  {
    AttemptKeeps(s, o, e, i);
  }
}
