/**
  The lock monitor used on Solaris, where file locks do not exclude threads of one process: a list of
  locked files under a mutex, with a condition for each on which other threads wait. Every critical
  section is one step; threads interleave freely between them.
 */
module LockMonitor {
  import opened Wrappers

  /** Device and inode. */
  datatype Key = Key(dev: int, inode: int)

  /** An entry of openFileList; `condition` tells apart the conditions ever created. */
  datatype Item = Item(key: Key, fd: int, condition: nat)

  /** Where a thread is, with the file it is about. */
  datatype Phase =
    | Out                                                      // no file
    | Trying(key: Key, fd: int, block: bool)                   // about to look at the list
    | Waiting(key: Key, fd: int, condition: nat)               // in pthread_cond_wait
    | Entered(key: Key, fd: int)                               // its entry is in the list, fcntl is under way
    | Holding(key: Key, fd: int)                               // sun_lockfile returned 0
    | Refused(key: Key, fd: int)                               // it returned an error
  {
    predicate Owns() {
      Entered? || Holding?
    }
  }

  datatype State = State(list: seq<Item>, phases: seq<Phase>, created: nat)

  datatype Action =
    | Open(key: Key, fd: int, block: bool)
    | Look                          // the loop body of sun_lockfile
    | Wake                          // pthread_cond_wait returns, for whatever reason
    | Fcntl(ok: bool)
    | Close                         // unlock_and_close

  /** gwlist_search with file_lock_inode_cmp: the first entry for a file, or -1. */
  function Search(list: seq<Item>, key: Key): (i: int)
    ensures -1 <= i < |list|
    ensures i >= 0 ==> list[i].key == key
  {
    if list == [] then -1
    else if list[0].key == key then 0
    else
      var j := Search(list[1..], key);
      if j < 0 then -1 else j + 1
  }

  function RemoveAt(list: seq<Item>, i: nat): (r: seq<Item>)
    requires i < |list|
    ensures |r| == |list| - 1
  {
    list[..i] + list[i + 1..]
  }

  /** A broadcast sends the waiters back to look again. */
  function WakeAll(phases: seq<Phase>, condition: nat): (r: seq<Phase>)
    ensures |r| == |phases|
  {
    seq(|phases|, w requires 0 <= w < |phases| =>
      if phases[w].Waiting? && phases[w].condition == condition then Trying(phases[w].key, phases[w].fd, true) else phases[w])
  }

  /** release_file_lock: only the owner's own entry goes. */
  function Release(s: State, key: Key, fd: int): State {
    var i := Search(s.list, key);
    if i >= 0 && s.list[i].fd == fd then s.(list := RemoveAt(s.list, i), phases := WakeAll(s.phases, s.list[i].condition)) else s
  }

  function Move(s: State, w: nat, p: Phase): State
    requires w < |s.phases|
  {
    s.(phases := s.phases[w := p])
  }

  /** Descriptors that are open have different numbers. */
  ghost predicate Fresh(s: State, fd: int) {
    forall v :: 0 <= v < |s.phases| && !s.phases[v].Out? ==> s.phases[v].fd != fd
  }

  ghost predicate Enabled(s: State, w: nat, a: Action)
    requires w < |s.phases|
  {
    match a
    case Open(_, fd, _) => s.phases[w].Out? && Fresh(s, fd)
    case Look => s.phases[w].Trying?
    case Wake => s.phases[w].Waiting?
    case Fcntl(_) => s.phases[w].Entered?
    case Close => s.phases[w].Holding? || s.phases[w].Refused?
  }

  ghost function Apply(s: State, w: nat, a: Action): State
    requires w < |s.phases| && Enabled(s, w, a)
  {
    var p := s.phases[w];
    match a
    case Open(key, fd, block) => Move(s, w, Trying(key, fd, block))
    case Look =>
      var i := Search(s.list, p.key);
      if i < 0 then Move(s, w, Entered(p.key, p.fd)).(list := s.list + [Item(p.key, p.fd, s.created)], created := s.created + 1)
      else Move(s, w, if p.block then Waiting(p.key, p.fd, s.list[i].condition) else Refused(p.key, p.fd))
    case Wake => Move(s, w, Trying(p.key, p.fd, true))
    case Fcntl(ok) => if ok then Move(s, w, Holding(p.key, p.fd)) else Release(Move(s, w, Refused(p.key, p.fd)), p.key, p.fd)
    case Close => Release(Move(s, w, Out), p.key, p.fd)
  }

  ghost predicate Next(s: State, t: State) {
    exists w: nat, a :: w < |s.phases| && Enabled(s, w, a) && t == Apply(s, w, a)
  }

  ghost predicate Init(s: State) {
    s.list == [] && forall w :: 0 <= w < |s.phases| ==> s.phases[w].Out?
  }

  ghost predicate StepAt(run: seq<State>, i: int)
    requires 0 <= i < |run| - 1
  {
    Next(run[i], run[i + 1])
  }

  ghost predicate IsRun(run: seq<State>) {
    run != [] && Init(run[0]) && forall i :: 0 <= i < |run| - 1 ==> StepAt(run, i)
  }

  // ---- the invariant ----

  ghost predicate OwnsItem(p: Phase, x: Item) {
    p.Owns() && p.key == x.key && p.fd == x.fd
  }

  ghost predicate Listed(list: seq<Item>, p: Phase) {
    exists i :: 0 <= i < |list| && OwnsItem(p, list[i])
  }

  ghost predicate Owned(phases: seq<Phase>, x: Item) {
    exists w :: 0 <= w < |phases| && OwnsItem(phases[w], x)
  }

  /** The condition that is waited on is that of an entry for the same file. */
  ghost predicate Live(list: seq<Item>, key: Key, condition: nat) {
    exists i :: 0 <= i < |list| && list[i].key == key && list[i].condition == condition
  }

  /** No two entries for one file, and no two with one condition. */
  ghost predicate OneEach(list: seq<Item>, created: nat) {
    && (forall i :: 0 <= i < |list| ==> list[i].condition < created)
    && forall i, j :: 0 <= i < j < |list| ==> list[i].key != list[j].key && list[i].condition != list[j].condition
  }

  ghost predicate Apart(phases: seq<Phase>) {
    forall v, w :: 0 <= v < w < |phases| && !phases[v].Out? && !phases[w].Out? ==> phases[v].fd != phases[w].fd
  }

  /** A thread's entry is in the list exactly while it owns the file, and nobody waits on a condition that is gone. */
  ghost predicate Inv(s: State) {
    && OneEach(s.list, s.created) && Apart(s.phases)
    && (forall i :: 0 <= i < |s.list| ==> Owned(s.phases, s.list[i]))
    && (forall w :: 0 <= w < |s.phases| && s.phases[w].Owns() ==> Listed(s.list, s.phases[w]))
    && (forall w :: 0 <= w < |s.phases| && s.phases[w].Waiting? ==> Live(s.list, s.phases[w].key, s.phases[w].condition))
  }

  lemma {:induction false} SearchFinds(list: seq<Item>, key: Key)
    ensures Search(list, key) < 0 ==> forall i :: 0 <= i < |list| ==> list[i].key != key
  {
    if list != [] {
      SearchFinds(list[1..], key);
      assert forall i :: 1 <= i < |list| ==> list[i] == list[1..][i - 1];
    }
  }

  lemma SearchIsOnly(s: State, key: Key, i: nat)
    requires OneEach(s.list, s.created) && i < |s.list| && s.list[i].key == key
    ensures Search(s.list, key) == i
  {
    SearchFinds(s.list, key);
  }

  lemma InitInv(s: State)
    requires Init(s)
    ensures Inv(s)
  {
  }

  /** A thread that does not own anything, before or after, moves. */
  lemma QuietMove(s: State, w: nat, p: Phase)
    requires Inv(s) && w < |s.phases| && !s.phases[w].Owns() && !p.Owns()
    requires p.Out? || (if s.phases[w].Out? then Fresh(s, p.fd) else p.fd == s.phases[w].fd)
    requires p.Waiting? ==> Live(s.list, p.key, p.condition)
    ensures Inv(Move(s, w, p))
  {
    var t := Move(s, w, p);
    forall i | 0 <= i < |t.list| ensures Owned(t.phases, t.list[i]) {
      var v :| 0 <= v < |s.phases| && OwnsItem(s.phases[v], s.list[i]);
      assert t.phases[v] == s.phases[v];
    }
  }

  lemma EnterKeepsOneEach(s: State, x: Item)
    requires OneEach(s.list, s.created) && Search(s.list, x.key) < 0 && x.condition == s.created
    ensures OneEach(s.list + [x], s.created + 1)
  {
    SearchFinds(s.list, x.key);
  }

  /** A thread finds no entry and puts in its own. */
  lemma EnterKeepsInv(s: State, w: nat)
    requires Inv(s) && w < |s.phases| && s.phases[w].Trying? && Search(s.list, s.phases[w].key) < 0
    ensures Inv(Apply(s, w, Look))
  {
    var p := s.phases[w];
    var t := Apply(s, w, Look);
    var x := Item(p.key, p.fd, s.created);
    EnterKeepsOneEach(s, x);
    assert OwnsItem(t.phases[w], t.list[|s.list|]);
    forall i | 0 <= i < |t.list| ensures Owned(t.phases, t.list[i]) {
      if i < |s.list| {
        var v :| 0 <= v < |s.phases| && OwnsItem(s.phases[v], s.list[i]);
        assert OwnsItem(t.phases[v], t.list[i]);
      }
    }
    forall v | 0 <= v < |t.phases| && t.phases[v].Owns() ensures Listed(t.list, t.phases[v]) {
      if v != w {
        var i :| 0 <= i < |s.list| && OwnsItem(s.phases[v], s.list[i]);
        assert OwnsItem(t.phases[v], t.list[i]);
      }
    }
    EnterKeepsLive(s, w, x);
  }

  lemma EnterKeepsLive(s: State, w: nat, x: Item)
    requires Inv(s) && w < |s.phases|
    ensures forall v :: 0 <= v < |s.phases| && s.phases[v].Waiting? ==> Live(s.list + [x], s.phases[v].key, s.phases[v].condition)
  {
    forall v | 0 <= v < |s.phases| && s.phases[v].Waiting? ensures Live(s.list + [x], s.phases[v].key, s.phases[v].condition) {
      var i :| 0 <= i < |s.list| && s.list[i].key == s.phases[v].key && s.list[i].condition == s.phases[v].condition;
      assert (s.list + [x])[i] == s.list[i];
    }
  }

  /** fcntl succeeds: the entry stays. */
  lemma HoldKeepsInv(s: State, w: nat)
    requires Inv(s) && w < |s.phases| && s.phases[w].Entered?
    ensures Inv(Apply(s, w, Fcntl(true)))
  {
    var t := Apply(s, w, Fcntl(true));
    forall i | 0 <= i < |t.list| ensures Owned(t.phases, t.list[i]) {
      var v :| 0 <= v < |s.phases| && OwnsItem(s.phases[v], s.list[i]);
      assert OwnsItem(t.phases[v], t.list[i]);
    }
    forall v | 0 <= v < |t.phases| && t.phases[v].Owns() ensures Listed(t.list, t.phases[v]) {
      var i :| 0 <= i < |s.list| && OwnsItem(s.phases[v], s.list[i]);
      assert OwnsItem(t.phases[v], t.list[i]);
    }
  }

  /** A thread without an entry finds another's, or none: releasing changes nothing. */
  lemma ReleaseOfNothing(s: State, w: nat, p: Phase)
    requires Inv(s) && w < |s.phases| && s.phases[w].Refused? && !p.Owns()
    ensures Release(Move(s, w, p), s.phases[w].key, s.phases[w].fd) == Move(s, w, p)
  {
    forall j | 0 <= j < |s.list| ensures s.list[j].fd != s.phases[w].fd {
      var v :| 0 <= v < |s.phases| && OwnsItem(s.phases[v], s.list[j]);
    }
  }

  /** The owner's entry: where it is, and what the list is without it. */
  lemma OwnEntry(s: State, w: nat) returns (i: nat)
    requires Inv(s) && w < |s.phases| && s.phases[w].Owns()
    ensures i < |s.list| && OwnsItem(s.phases[w], s.list[i]) && Search(s.list, s.phases[w].key) == i
  {
    var j :| 0 <= j < |s.list| && OwnsItem(s.phases[w], s.list[j]);
    SearchIsOnly(s, s.phases[w].key, j);
    i := j;
  }

  lemma RemovedAt(list: seq<Item>, i: nat)
    requires i < |list|
    ensures forall j :: 0 <= j < |list| && j != i ==> list[j] == RemoveAt(list, i)[if j < i then j else j - 1]
    ensures forall j :: 0 <= j < |list| - 1 ==> RemoveAt(list, i)[j] == list[if j < i then j else j + 1]
  {
  }

  lemma RemoveKeepsOneEach(list: seq<Item>, created: nat, i: nat)
    requires OneEach(list, created) && i < |list|
    ensures OneEach(RemoveAt(list, i), created)
  {
    var r := RemoveAt(list, i);
    forall j | 0 <= j < |r| ensures r[j] == list[if j < i then j else j + 1] {
      RemovedAt(list, i);
    }
  }

  /** The threads once the owner of entry `i` has given it up and its waiters are awake. */
  function Released(s: State, w: nat, p: Phase, i: nat): seq<Phase>
    requires w < |s.phases| && i < |s.list|
  {
    WakeAll(s.phases[w := p], s.list[i].condition)
  }

  lemma ReleasedOwners(s: State, w: nat, p: Phase, i: nat)
    requires Inv(s) && w < |s.phases| && i < |s.list| && OwnsItem(s.phases[w], s.list[i]) && !p.Owns() && !p.Waiting?
    ensures forall v :: 0 <= v < |s.phases| && v != w && s.phases[v].Owns() ==> Released(s, w, p, i)[v] == s.phases[v]
    ensures forall v :: 0 <= v < |s.phases| && Released(s, w, p, i)[v].Owns() ==> v != w && s.phases[v] == Released(s, w, p, i)[v]
    ensures forall v :: 0 <= v < |s.phases| && Released(s, w, p, i)[v].Waiting? ==>
              v != w && s.phases[v] == Released(s, w, p, i)[v] && s.phases[v].condition != s.list[i].condition
  {
  }

  lemma ReleaseKeepsOwned(s: State, w: nat, p: Phase, i: nat)
    requires Inv(s) && w < |s.phases| && i < |s.list| && OwnsItem(s.phases[w], s.list[i]) && !p.Owns() && !p.Waiting?
    ensures var list := RemoveAt(s.list, i); forall j :: 0 <= j < |list| ==> Owned(Released(s, w, p, i), list[j])
  {
    var list, phases := RemoveAt(s.list, i), Released(s, w, p, i);
    RemovedAt(s.list, i);
    ReleasedOwners(s, w, p, i);
    forall j | 0 <= j < |list| ensures Owned(phases, list[j]) {
      var k := if j < i then j else j + 1;
      var v :| 0 <= v < |s.phases| && OwnsItem(s.phases[v], s.list[k]);
      assert OwnsItem(phases[v], list[j]);
    }
  }

  lemma ReleaseKeepsListed(s: State, w: nat, p: Phase, i: nat)
    requires Inv(s) && w < |s.phases| && i < |s.list| && OwnsItem(s.phases[w], s.list[i]) && !p.Owns() && !p.Waiting?
    ensures var phases := Released(s, w, p, i);
            forall v :: 0 <= v < |phases| && phases[v].Owns() ==> Listed(RemoveAt(s.list, i), phases[v])
  {
    var list, phases := RemoveAt(s.list, i), Released(s, w, p, i);
    RemovedAt(s.list, i);
    ReleasedOwners(s, w, p, i);
    forall v | 0 <= v < |phases| && phases[v].Owns() ensures Listed(list, phases[v]) {
      var j :| 0 <= j < |s.list| && OwnsItem(s.phases[v], s.list[j]);
      assert OwnsItem(phases[v], list[if j < i then j else j - 1]);
    }
  }

  lemma ReleaseKeepsLive(s: State, w: nat, p: Phase, i: nat)
    requires Inv(s) && w < |s.phases| && i < |s.list| && OwnsItem(s.phases[w], s.list[i]) && !p.Owns() && !p.Waiting?
    ensures var phases := Released(s, w, p, i);
            forall v :: 0 <= v < |phases| && phases[v].Waiting? ==> Live(RemoveAt(s.list, i), phases[v].key, phases[v].condition)
  {
    var list, phases := RemoveAt(s.list, i), Released(s, w, p, i);
    RemovedAt(s.list, i);
    ReleasedOwners(s, w, p, i);
    forall v | 0 <= v < |phases| && phases[v].Waiting? ensures Live(list, phases[v].key, phases[v].condition) {
      var j :| 0 <= j < |s.list| && s.list[j].key == s.phases[v].key && s.list[j].condition == s.phases[v].condition;
      assert j != i;
      var k := if j < i then j else j - 1;
      assert 0 <= k < |list| && list[k] == s.list[j];
    }
  }

  /** An owner gives its file up: its entry goes, and all who waited for it look again. */
  lemma ReleaseKeepsInv(s: State, w: nat, p: Phase) returns (i: nat)
    requires Inv(s) && w < |s.phases| && s.phases[w].Owns()
    requires p == Out || p == Refused(s.phases[w].key, s.phases[w].fd)
    ensures i < |s.list| && OwnsItem(s.phases[w], s.list[i])
    ensures var t := Release(Move(s, w, p), s.phases[w].key, s.phases[w].fd);
            Inv(t) && t == State(RemoveAt(s.list, i), Released(s, w, p, i), s.created)
  {
    i := OwnEntry(s, w);
    RemoveKeepsOneEach(s.list, s.created, i);
    ReleaseKeepsOwned(s, w, p, i);
    ReleaseKeepsListed(s, w, p, i);
    ReleaseKeepsLive(s, w, p, i);
    ReleaseKeepsApart(s, w, p, i);
  }

  lemma ReleaseKeepsApart(s: State, w: nat, p: Phase, i: nat)
    requires Apart(s.phases) && w < |s.phases| && i < |s.list| && !s.phases[w].Out?
    requires p == Out || p == Refused(s.phases[w].key, s.phases[w].fd)
    ensures Apart(Released(s, w, p, i))
  {
  }

  /** The file is free once its entry is gone. */
  lemma FreeAfterRemoval(s: State, i: nat)
    requires OneEach(s.list, s.created) && i < |s.list|
    ensures Search(RemoveAt(s.list, i), s.list[i].key) < 0
  {
    RemovedAt(s.list, i);
    forall j | 0 <= j < |s.list| - 1 ensures RemoveAt(s.list, i)[j].key != s.list[i].key {
      assert RemoveAt(s.list, i)[j] == s.list[if j < i then j else j + 1];
    }
  }

  lemma NextKeepsInv(s: State, w: nat, a: Action)
    requires Inv(s) && w < |s.phases| && Enabled(s, w, a)
    ensures Inv(Apply(s, w, a))
  {
    var p := s.phases[w];
    match a {
      case Open(key, fd, block) => QuietMove(s, w, Trying(key, fd, block));
      case Look =>
        var i := Search(s.list, p.key);
        if i < 0 {
          EnterKeepsInv(s, w);
        } else {
          QuietMove(s, w, if p.block then Waiting(p.key, p.fd, s.list[i].condition) else Refused(p.key, p.fd));
        }
      case Wake => QuietMove(s, w, Trying(p.key, p.fd, true));
      case Fcntl(ok) =>
        if ok {
          HoldKeepsInv(s, w);
        } else {
          var i := ReleaseKeepsInv(s, w, Refused(p.key, p.fd));
        }
      case Close =>
        if p.Holding? {
          var i := ReleaseKeepsInv(s, w, Out);
        } else {
          ReleaseOfNothing(s, w, Out);
          QuietMove(s, w, Out);
        }
    }
  }

  lemma StepKeepsInv(s: State, t: State)
    requires Inv(s) && Next(s, t)
    ensures Inv(t)
  {
    var w: nat, a :| w < |s.phases| && Enabled(s, w, a) && t == Apply(s, w, a);
    NextKeepsInv(s, w, a);
  }

  lemma {:induction false} RunKeepsInv(run: seq<State>, i: nat)
    requires IsRun(run) && i < |run|
    ensures Inv(run[i])
  {
    if i == 0 {
      InitInv(run[0]);
    } else {
      RunKeepsInv(run, i - 1);
      assert StepAt(run, i - 1);
      StepKeepsInv(run[i - 1], run[i]);
    }
  }

  // ---- what it means ----

  /** Main result: in every run no two threads own the same file, a thread that returned success has its
      entry in the list, and a thread that waits for a file waits on the condition of a thread that owns it. */
  lemma RunsExclude(run: seq<State>, i: nat, v: nat, w: nat)
    requires IsRun(run) && i < |run| && v < |run[i].phases| && w < |run[i].phases| && v != w
    ensures var s := run[i];
            && (s.phases[v].Owns() && s.phases[w].Owns() ==> s.phases[v].key != s.phases[w].key)
            && (s.phases[w].Holding? ==> Listed(s.list, s.phases[w]))
            && (s.phases[w].Waiting? ==> exists u, j :: 0 <= u < |s.phases| && 0 <= j < |s.list| && OwnsItem(s.phases[u], s.list[j])
                                            && s.list[j].key == s.phases[w].key && s.list[j].condition == s.phases[w].condition)
  {
    RunKeepsInv(run, i);
    var s := run[i];
    if s.phases[v].Owns() && s.phases[w].Owns() && s.phases[v].key == s.phases[w].key {
      var a := OwnEntry(s, v);
      var b := OwnEntry(s, w);
    }
    if s.phases[w].Waiting? {
      var j :| 0 <= j < |s.list| && s.list[j].key == s.phases[w].key && s.list[j].condition == s.phases[w].condition;
      assert Owned(s.phases, s.list[j]);
    }
  }

  /** No wake-up is lost: when the owner gives the file up, nobody is left waiting for it, and the first to
      look gets it. */
  lemma ReleaseWakesAll(s: State, w: nat, v: nat)
    requires Inv(s) && w < |s.phases| && s.phases[w].Holding? && v < |s.phases| && v != w
    requires s.phases[v].Waiting? && s.phases[v].key == s.phases[w].key
    ensures var t := Apply(s, w, Close);
            && t.phases[v] == Trying(s.phases[v].key, s.phases[v].fd, true)
            && Apply(t, v, Look).phases[v] == Entered(s.phases[v].key, s.phases[v].fd)
  {
    var i := ReleaseKeepsInv(s, w, Out);
    var j :| 0 <= j < |s.list| && s.list[j].key == s.phases[v].key && s.list[j].condition == s.phases[v].condition;
    assert j == i;
    FreeAfterRemoval(s, i);
  }

  /** The files that are locked, and by which thread: what the list stands for. */
  ghost predicate Lock(s: State, key: Key, w: nat) {
    w < |s.phases| && s.phases[w].Owns() && s.phases[w].key == key
  }

  /** Each step locks one free file for the thread that takes it, frees one file of its owner, or changes no lock. */
  lemma StepsRefineLocks(s: State, w: nat, a: Action, key: Key, v: nat)
    requires Inv(s) && w < |s.phases| && Enabled(s, w, a)
    ensures var t := Apply(s, w, a);
            && (Lock(t, key, v) && !Lock(s, key, v) ==> v == w && a.Look? && forall u: nat :: !Lock(s, key, u))
            && (Lock(s, key, v) && !Lock(t, key, v) ==> v == w && (a.Close? || a == Fcntl(false)))
  {
    var t := Apply(s, w, a);
    if a.Look? && Search(s.list, s.phases[w].key) < 0 {
      forall u: nat ensures !Lock(s, s.phases[w].key, u) {
        if Lock(s, s.phases[w].key, u) {
          var i := OwnEntry(s, u);
        }
      }
    }
  }
}
