/**
  The work list of the PostgreSQL queue runner: one scanner puts the ids of due messages on a list, any
  number of consumers take them off, and a dictionary of keys keeps ids from being listed twice. The list
  and the dictionary have locks of their own, so every operation on one of them is a step.
 */
module WorkList {
  import opened Wrappers

  /** A consumer: waiting for work, having taken an id but not yet read the message, or delivering. */
  datatype Consumer = Waiting | Taken(id: int) | Delivering(id: int)

  datatype State = State(work: seq<int>, keys: set<int>, producing: Option<int>, consumers: seq<Consumer>)

  datatype Action =
    | Scan(id: int)        // the scanner finds the id due, and tries dict_put_once
    | Produce              // gwlist_produce
    | Consume(w: nat)      // gwlist_consume
    | Forget(w: nat)       // the message has been read: dict_remove
    | Finish(w: nat)       // deliver returns

  predicate Enabled(s: State, a: Action) {
    match a
    case Scan(_) => s.producing == None
    case Produce => s.producing.Some?
    case Consume(w) => w < |s.consumers| && s.consumers[w] == Waiting && s.work != []
    case Forget(w) => w < |s.consumers| && s.consumers[w].Taken?
    case Finish(w) => w < |s.consumers| && s.consumers[w].Delivering?
  }

  function Apply(s: State, a: Action): State
    requires Enabled(s, a)
  {
    match a
    case Scan(id) => if id in s.keys then s else s.(keys := s.keys + {id}, producing := Some(id))
    case Produce => s.(work := s.work + [s.producing.value], producing := None)
    case Consume(w) => s.(work := s.work[1..], consumers := s.consumers[w := Taken(s.work[0])])
    case Forget(w) => s.(keys := s.keys - {s.consumers[w].id}, consumers := s.consumers[w := Delivering(s.consumers[w].id)])
    case Finish(w) => s.(consumers := s.consumers[w := Waiting])
  }

  ghost predicate Init(s: State) {
    s.work == [] && s.keys == {} && s.producing == None && forall w :: 0 <= w < |s.consumers| ==> s.consumers[w] == Waiting
  }

  ghost predicate IsRun(run: seq<State>) {
    run != [] && Init(run[0]) && forall i :: 0 <= i < |run| - 1 ==> StepAt(run, i)
  }

  ghost predicate StepAt(run: seq<State>, i: int)
    requires 0 <= i < |run| - 1
  {
    exists a :: Enabled(run[i], a) && run[i + 1] == Apply(run[i], a)
  }

  // ---- the three places an id can be in between ----

  predicate Listed(s: State, id: int) {
    exists i :: 0 <= i < |s.work| && s.work[i] == id
  }

  predicate Held(s: State, id: int) {
    exists w :: 0 <= w < |s.consumers| && s.consumers[w] == Taken(id)
  }

  predicate InHand(s: State, id: int) {
    s.producing == Some(id)
  }

  /** The keys are exactly the ids on their way from the scanner to a consumer that has not read them yet,
      and each of those is in one place only. */
  ghost predicate Inv(s: State) {
    && (forall id :: id in s.keys <==> InHand(s, id) || Listed(s, id) || Held(s, id))
    && (forall i, j :: 0 <= i < j < |s.work| ==> s.work[i] != s.work[j])
    && (forall v, w :: 0 <= v < w < |s.consumers| && s.consumers[v].Taken? && s.consumers[w].Taken? ==> s.consumers[v].id != s.consumers[w].id)
    && (forall id :: !(InHand(s, id) && Listed(s, id)) && !(InHand(s, id) && Held(s, id)) && !(Listed(s, id) && Held(s, id)))
  }

  /** Which places an id is in after a step. */
  lemma PlacesAfter(s: State, a: Action, id: int)
    requires Inv(s) && Enabled(s, a)
    ensures var t := Apply(s, a);
            match a
            case Scan(x) => InHand(t, id) == (InHand(s, id) || (id == x && x !in s.keys)) && Listed(t, id) == Listed(s, id) && Held(t, id) == Held(s, id)
            case Produce => !InHand(t, id) && Listed(t, id) == (Listed(s, id) || InHand(s, id)) && Held(t, id) == Held(s, id)
            case Consume(w) => InHand(t, id) == InHand(s, id) && Listed(t, id) == (Listed(s, id) && id != s.work[0])
                               && Held(t, id) == (Held(s, id) || id == s.work[0])
            case Forget(w) => InHand(t, id) == InHand(s, id) && Listed(t, id) == Listed(s, id)
                              && Held(t, id) == (Held(s, id) && id != s.consumers[w].id)
            case Finish(w) => InHand(t, id) == InHand(s, id) && Listed(t, id) == Listed(s, id) && Held(t, id) == Held(s, id)
  {
    var t := Apply(s, a);
    match a {
      case Scan(_) =>
      case Produce =>
        var n := |s.work|;
        assert t.work[n] == s.producing.value && t.work[..n] == s.work;
        assert forall i :: 0 <= i < n ==> t.work[i] == s.work[i];
      case Consume(w) =>
        assert forall i :: 1 <= i < |s.work| ==> t.work[i - 1] == s.work[i];
        assert forall i :: 0 <= i < |t.work| ==> t.work[i] == s.work[i + 1];
        assert t.consumers[w] == Taken(s.work[0]);
        HeldAfter(s, t, w, id);
      case Forget(w) => HeldAfter(s, t, w, id);
      case Finish(w) => HeldAfter(s, t, w, id);
    }
  }

  /** Only one consumer changes. */
  lemma HeldAfter(s: State, t: State, w: nat, id: int)
    requires w < |s.consumers| && |t.consumers| == |s.consumers| && t.consumers == s.consumers[w := t.consumers[w]]
    requires forall v, u :: 0 <= v < u < |s.consumers| && s.consumers[v].Taken? && s.consumers[u].Taken? ==> s.consumers[v].id != s.consumers[u].id
    ensures Held(t, id) == ((Held(s, id) && s.consumers[w] != Taken(id)) || t.consumers[w] == Taken(id))
  {
    if Held(s, id) && s.consumers[w] != Taken(id) {
      var v :| 0 <= v < |s.consumers| && s.consumers[v] == Taken(id);
      assert t.consumers[v] == Taken(id);
    }
    if Held(t, id) && t.consumers[w] != Taken(id) {
      var v :| 0 <= v < |t.consumers| && t.consumers[v] == Taken(id);
      assert s.consumers[v] == Taken(id);
    }
  }

  lemma StepKeepsInv(s: State, a: Action)
    requires Inv(s) && Enabled(s, a)
    ensures Inv(Apply(s, a))
  {
    var t := Apply(s, a);
    forall id ensures (id in t.keys <==> InHand(t, id) || Listed(t, id) || Held(t, id))
                   && !(InHand(t, id) && Listed(t, id)) && !(InHand(t, id) && Held(t, id)) && !(Listed(t, id) && Held(t, id))
    {
      PlacesAfter(s, a, id);
    }
    if a.Produce? {
      assert forall i :: 0 <= i < |s.work| ==> Listed(s, s.work[i]);
    }
    if a.Consume? {
      assert Listed(s, s.work[0]);
      forall v | 0 <= v < |s.consumers| && s.consumers[v].Taken? ensures s.consumers[v].id != s.work[0] {
        assert Held(s, s.consumers[v].id);
      }
    }
  }

  lemma {:induction false} RunKeepsInv(run: seq<State>, i: nat)
    requires IsRun(run) && i < |run|
    ensures Inv(run[i])
  {
    if i > 0 {
      RunKeepsInv(run, i - 1);
      assert StepAt(run, i - 1);
      var a :| Enabled(run[i - 1], a) && run[i] == Apply(run[i - 1], a);
      StepKeepsInv(run[i - 1], a);
    }
  }

  /** Main result: in every interleaving no id is on the list twice, or on the list and with a consumer that has
      not read it; and an id the scanner is turned away with is on its way, so that none is forgotten. */
  lemma NoDuplicates(run: seq<State>, i: nat, id: int)
    requires IsRun(run) && i < |run|
    ensures multiset(run[i].work)[id] <= 1
    ensures Listed(run[i], id) ==> !Held(run[i], id) && !InHand(run[i], id)
    ensures id in run[i].keys <==> InHand(run[i], id) || Listed(run[i], id) || Held(run[i], id)
  {
    RunKeepsInv(run, i);
    Once(run[i].work, id);
  }

  lemma {:induction false} Once(work: seq<int>, id: int)
    requires forall i, j :: 0 <= i < j < |work| ==> work[i] != work[j]
    ensures multiset(work)[id] <= 1
  {
    if work != [] {
      assert work == [work[0]] + work[1..];
      assert forall i, j :: 0 <= i < j < |work| - 1 ==> work[1..][i] != work[1..][j];
      Once(work[1..], id);
      if work[0] == id {
        assert id !in work[1..];
      }
    }
  }
}
