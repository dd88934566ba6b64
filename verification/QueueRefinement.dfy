/**
  Main results about the file queue: every run of the system-call protocol is a run of the locked
  store, so exclusion, crash atomicity and freedom from lost updates hold in every interleaving.
 */
module QueueRefinement {
  import opened Wrappers
  import opened QueueProtocol
  import L = LockedStore

  /** What a reader arriving now would decode under the name. */
  ghost function OnDisk<E>(c: Codec<E>, dir: map<Name, Ino>, data: map<Ino, string>, q: string): Option<E> {
    if Entry(q) in dir then c.decode(0, Content(data, dir[Entry(q)])) else None
  }

  ghost function Entries<E>(c: Codec<E>, dir: map<Name, Ino>, data: map<Ino, string>): imap<string, E> {
    imap q | OnDisk(c, dir, data, q).Some? :: OnDisk(c, dir, data, q).value
  }

  ghost function InHand<E>(p: Phase<E>): Option<L.Held<E>> {
    if p.Holds() then Some(L.Held(p.name, p.env)) else None
  }

  /** The store a file-system state stands for, read off the files and the workers' hands. */
  ghost function Abs<E>(c: Codec<E>, s: State<E>): L.Store<E> {
    L.Store(Entries(c, s.dir, s.data), seq(|s.phases|, w requires 0 <= w < |s.phases| => InHand(s.phases[w])))
  }

  /** The store operation a system call amounts to. */
  ghost function OpOf<E(!new)>(c: Codec<E>, s: State<E>, w: nat, a: Action<E>): L.Op<E>
    requires w < |s.phases| && Enabled(c, NoFaults, s, w, a)
  {
    match a
    case Read(_) => if Target(c, NoFaults, s, w, a).Holding? then L.Acquire(s.phases[w].name) else L.Stutter
    case Rename => L.Replace(s.phases[w].next)
    case Unlink => L.Delete
    case Release => L.Drop
    case Crash => L.Drop
    case Create(q, _) => L.Create(q, c.blank.value)
    case Fill(k) => if s.phases[w].rest[k..] == "" then L.Create(s.phases[w].name, s.phases[w].env) else L.Stutter
    case _ => L.Stutter
  }

  /** The name of the entry an action changes, if it changes one. */
  ghost function Changed<E(!new)>(s: State<E>, w: nat, a: Action<E>): Option<string>
    requires w < |s.phases|
  {
    var p := s.phases[w];
    match a
    case Create(q, _) => Some(q)
    case Rename => if p.Writing? then Some(p.name) else None
    case Unlink => if p.Holding? then Some(p.name) else None
    case Fill(k) => if p.Filling? && 0 <= k <= |p.rest| && p.rest[k..] == "" then Some(p.name) else None
    case _ => None
  }

  /** The entry before and after an action that changes it. */
  lemma ChangedAfter<E(!new)>(c: Codec<E>, s: State<E>, w: nat, a: Action<E>)
    requires Sound(c) && Inv(c, s) && w < |s.phases| && Enabled(c, NoFaults, s, w, a) && Changed(s, w, a).Some?
    ensures
      var q := Changed(s, w, a).value;
      var was, now := OnDisk(c, s.dir, s.data, q), OnDisk(c, DirAfter(c, NoFaults, s, w, a), DataAfter(c, NoFaults, s, w, a), q);
      match a
      case Create(_, _) => was == None && now == c.blank
      case Rename => was == Some(s.phases[w].env) && now == Some(s.phases[w].next)
      case Unlink => was == Some(s.phases[w].env) && now == None
      case Fill(_) => was == None && now == Some(s.phases[w].env)
      case _ => true
  {
    var p := s.phases[w];
    assert PhaseOk(c, s.dir, s.data, p);
    if a.Fill? {
      assert p.rest[..a.k] == p.rest;
      assert Content(s.data, p.ino) < c.encode(p.env);
    }
    if a.Rename? {
      assert Content(s.data, p.tino) + p.rest == Content(s.data, p.tino);
    }
  }

  /** A file that is being made, but is not complete yet, is not there for a reader. */
  lemma UnfinishedAfter<E(!new)>(c: Codec<E>, s: State<E>, w: nat, a: Action<E>, q: string)
    requires Sound(c) && Inv(c, s) && w < |s.phases| && Enabled(c, NoFaults, s, w, a) && Changed(s, w, a) != Some(q)
    requires a.Fill? || a.Make? || a.MakeStat?
    ensures OnDisk(c, DirAfter(c, NoFaults, s, w, a), DataAfter(c, NoFaults, s, w, a), q) == OnDisk(c, s.dir, s.data, q)
  {
    var p := s.phases[w];
    assert PhaseOk(c, s.dir, s.data, p);
    if a.Fill? && p.rest[a.k..] != "" {
      assert Content(s.data, p.ino) + p.rest[..a.k] + p.rest[a.k..] == c.encode(p.env);
      assert Content(s.data, p.ino) < c.encode(p.env) && Content(s.data, p.ino) + p.rest[..a.k] < c.encode(p.env);
    }
    if a.Make? {
      assert "" < c.encode(a.env);
    }
    if a.MakeStat? {
      LinksOne(s.dir, Entry(p.name));
    }
  }

  /** The actions that touch temporary files, or the one entry they change. */
  lemma TempAfter<E(!new)>(c: Codec<E>, s: State<E>, w: nat, a: Action<E>, q: string)
    requires Sound(c) && Inv(c, s) && w < |s.phases| && Enabled(c, NoFaults, s, w, a) && Changed(s, w, a) != Some(q)
    requires a.TempCreate? || a.Write? || a.Rename? || a.Unlink? || a.Create?
    ensures OnDisk(c, DirAfter(c, NoFaults, s, w, a), DataAfter(c, NoFaults, s, w, a), q) == OnDisk(c, s.dir, s.data, q)
  {
    assert PhaseOk(c, s.dir, s.data, s.phases[w]);
  }

  /** No action changes what is on disk under another name, and most change nothing at all. */
  lemma OthersAfter<E(!new)>(c: Codec<E>, s: State<E>, w: nat, a: Action<E>, q: string)
    requires Sound(c) && Inv(c, s) && w < |s.phases| && Enabled(c, NoFaults, s, w, a) && Changed(s, w, a) != Some(q)
    ensures OnDisk(c, DirAfter(c, NoFaults, s, w, a), DataAfter(c, NoFaults, s, w, a), q) == OnDisk(c, s.dir, s.data, q)
  {
    if a.Fill? || a.Make? || a.MakeStat? {
      UnfinishedAfter(c, s, w, a, q);
    } else if a.TempCreate? || a.Write? || a.Rename? || a.Unlink? || a.Create? {
      TempAfter(c, s, w, a, q);
    }
  }

  /** The stored entries before and after an action. */
  lemma EntriesAfter<E(!new)>(c: Codec<E>, s: State<E>, w: nat, a: Action<E>)
    requires Sound(c) && Inv(c, s) && w < |s.phases| && Enabled(c, NoFaults, s, w, a)
    ensures
      var was, now := Entries(c, s.dir, s.data), Entries(c, DirAfter(c, NoFaults, s, w, a), DataAfter(c, NoFaults, s, w, a));
      var p := s.phases[w];
      match Changed(s, w, a)
      case None => now == was
      case Some(q) =>
        if a.Rename? then q in was && was[q] == p.env && now == was[q := p.next]
        else if a.Unlink? then q in was && was[q] == p.env && now == imap x | x in was && x != q :: was[x]
        else q !in was && now == was[q := if a.Create? then c.blank.value else p.env]
  {
    var dir, data := DirAfter(c, NoFaults, s, w, a), DataAfter(c, NoFaults, s, w, a);
    forall q | Changed(s, w, a) != Some(q) ensures OnDisk(c, dir, data, q) == OnDisk(c, s.dir, s.data, q) {
      OthersAfter(c, s, w, a, q);
    }
    match Changed(s, w, a)
    case Some(q) =>
      ChangedAfter(c, s, w, a);
      EntriesDiffer(c, s.dir, s.data, dir, data, q);
    case None =>
      EntriesSame(c, s.dir, s.data, dir, data);
  }

  lemma EntriesSame<E>(c: Codec<E>, dir: map<Name, Ino>, data: map<Ino, string>, dir': map<Name, Ino>, data': map<Ino, string>)
    requires forall q :: OnDisk(c, dir', data', q) == OnDisk(c, dir, data, q)
    ensures Entries(c, dir', data') == Entries(c, dir, data)
  {
  }

  /** Two file systems that agree on all names but one. */
  lemma EntriesDiffer<E>(c: Codec<E>, dir: map<Name, Ino>, data: map<Ino, string>, dir': map<Name, Ino>, data': map<Ino, string>, n: string)
    requires forall q :: q != n ==> OnDisk(c, dir', data', q) == OnDisk(c, dir, data, q)
    ensures
      var was, now := Entries(c, dir, data), Entries(c, dir', data');
      match OnDisk(c, dir', data', n)
      case Some(e) => now == was[n := e]
      case None => now == imap x | x in was && x != n :: was[x]
  {
  }

  /** Only the acting worker's hand changes. */
  lemma HeldAfter<E>(c: Codec<E>, s: State<E>, w: nat, r: Phase<E>)
    requires w < |s.phases|
    ensures Abs(c, Move(s, w, r)).held == Abs(c, s).held[w := InHand(r)]
  {
  }

  /** A successful read returns the version on disk, and nobody else holds the entry. */
  lemma ReadAcquires<E(!new)>(c: Codec<E>, s: State<E>, w: nat, a: Action<E>)
    requires Sound(c) && Inv(c, s) && w < |s.phases| && Enabled(c, NoFaults, s, w, a)
    requires a.Read? && Target(c, NoFaults, s, w, a).Holding?
    ensures
      var p := s.phases[w];
      && OnDisk(c, s.dir, s.data, p.name) == Some(Target(c, NoFaults, s, w, a).env)
      && forall v: nat :: !L.HeldBy(Abs(c, s), v, p.name)
  {
    var p := s.phases[w];
    assert PhaseOk(c, s.dir, s.data, p);
    assert WholeOrNone(c, Content(s.data, p.ino));
    assert p.ino in s.phases[w].Locks() && s.locks[p.ino] == w;
    forall v: nat ensures !L.HeldBy(Abs(c, s), v, p.name) {
      if v < |s.phases| && s.phases[v].Holds() {
        assert PhaseOk(c, s.dir, s.data, s.phases[v]);
        assert s.phases[v].ino in s.phases[v].Locks() && s.locks[s.phases[v].ino] == v;
      }
    }
  }

  /** The store before and after a system call. */
  lemma StoreAfter<E(!new)>(c: Codec<E>, s: State<E>, w: nat, a: Action<E>)
    requires Sound(c) && Inv(c, s) && w < |s.phases| && Enabled(c, NoFaults, s, w, a)
    ensures var A, B := Abs(c, s), Abs(c, Apply(c, NoFaults, s, w, a));
            && A.held[w := A.held[w]] == A.held && A.held[w] == InHand(s.phases[w])
            && B.entries == Entries(c, DirAfter(c, NoFaults, s, w, a), DataAfter(c, NoFaults, s, w, a))
            && B.held == A.held[w := InHand(Target(c, NoFaults, s, w, a))]
  {
    HeldAfter(c, s.(dir := DirAfter(c, NoFaults, s, w, a), data := DataAfter(c, NoFaults, s, w, a)), w, Target(c, NoFaults, s, w, a));
    assert Abs(c, s.(dir := DirAfter(c, NoFaults, s, w, a), data := DataAfter(c, NoFaults, s, w, a))).held == Abs(c, s).held;
  }

  /** Each system call is one step of the locked store. */
  lemma ActionRefines<E(!new)>(c: Codec<E>, s: State<E>, w: nat, a: Action<E>)
    requires Sound(c) && Inv(c, s) && w < |s.phases| && Enabled(c, NoFaults, s, w, a)
    ensures L.Step(Abs(c, s), Abs(c, Apply(c, NoFaults, s, w, a)), w, OpOf(c, s, w, a))
  {
    StoreAfter(c, s, w, a);
    EntriesAfter(c, s, w, a);
    if a.Read? && Target(c, NoFaults, s, w, a).Holding? {
      ReadAcquires(c, s, w, a);
    }
  }

  // ---- over whole runs ----

  /** The invariant holds in every state of every run. */
  lemma {:induction false} RunKeepsInv<E(!new)>(c: Codec<E>, run: seq<State<E>>, i: nat)
    requires Sound(c) && IsRun(c, NoFaults, run) && i < |run|
    ensures Inv(c, run[i])
  {
    if i > 0 {
      RunKeepsInv(c, run, i - 1);
      assert StepAt(c, NoFaults, run, i - 1);
      StepKeepsInv(c, run[i - 1], run[i]);
    }
  }

  lemma StepKeepsInv<E(!new)>(c: Codec<E>, s: State<E>, t: State<E>)
    requires Sound(c) && Inv(c, s) && Next(c, NoFaults, s, t)
    ensures Inv(c, t)
  {
    var w: nat, a :| w < |s.phases| && Enabled(c, NoFaults, s, w, a) && t == Apply(c, NoFaults, s, w, a);
    NextKeepsInv(c, s, w, a);
  }

  /** Nobody shares a queue file, and an owner's lock is on the file the name points to now. */
  ghost predicate Exclusive<E>(s: State<E>) {
    && (forall v, w, q :: 0 <= v < |s.phases| && 0 <= w < |s.phases| && s.phases[v].Owns(q) && s.phases[w].Owns(q) ==> v == w)
    && (forall w, q :: 0 <= w < |s.phases| && s.phases[w].Owns(q) ==>
          Entry(q) in s.dir && s.dir[Entry(q)] in s.locks && s.locks[s.dir[Entry(q)]] == w)
  }

  lemma InvImpliesExclusive<E(!new)>(c: Codec<E>, s: State<E>)
    requires Inv(c, s)
    ensures Exclusive(s)
  {
    forall w, q | 0 <= w < |s.phases| && s.phases[w].Owns(q)
      ensures Entry(q) in s.dir && s.dir[Entry(q)] in s.locks && s.locks[s.dir[Entry(q)]] == w
    {
      assert PhaseOk(c, s.dir, s.data, s.phases[w]);
      assert s.phases[w].ino in s.phases[w].Locks();
    }
  }

  /** Main result: in every run, every step is one step of the locked store, and the store is
      consistent throughout. Nothing but a holder's Replace or Delete changes an entry; a crash anywhere
      leaves each entry as the last or the next version written. */
  lemma RunRefinesStore<E(!new)>(c: Codec<E>, run: seq<State<E>>, i: nat)
    requires Sound(c) && IsRun(c, NoFaults, run) && i < |run|
    ensures L.Consistent(Abs(c, run[i])) && Exclusive(run[i])
    ensures i + 1 < |run| ==> L.Next(Abs(c, run[i]), Abs(c, run[i + 1]))
  {
    RunKeepsInv(c, run, i);
    InvImpliesExclusive(c, run[i]);
    InvImpliesConsistent(c, run[i]);
    if i + 1 < |run| {
      assert StepAt(c, NoFaults, run, i);
      var w: nat, a :| w < |run[i].phases| && Enabled(c, NoFaults, run[i], w, a) && run[i + 1] == Apply(c, NoFaults, run[i], w, a);
      ActionRefines(c, run[i], w, a);
    }
  }

  lemma InvImpliesConsistent<E(!new)>(c: Codec<E>, s: State<E>)
    requires Sound(c) && Inv(c, s)
    ensures L.Consistent(Abs(c, s))
  {
    InvImpliesExclusive(c, s);
    var A := Abs(c, s);
    forall w | 0 <= w < |A.held| && A.held[w].Some?
      ensures A.held[w].value.q in A.entries && A.entries[A.held[w].value.q] == A.held[w].value.env
      ensures s.phases[w].Owns(A.held[w].value.q)
    {
      assert PhaseOk(c, s.dir, s.data, s.phases[w]);
    }
  }

  // ---- no update is lost ----

  /** Worker `w` has entry `q` in hand, in version `e`. */
  ghost predicate Has<E>(s: State<E>, w: nat, q: string, e: E) {
    w < |s.phases| && s.phases[w].Holds() && s.phases[w].name == q && s.phases[w].env == e
  }

  /** Main result: in every run, whenever an entry changes or goes, it does so at the hands of the one worker that has
      it, in the version that was on disk; and the version that is on disk then is the one that worker has. */
  lemma ChangesAreHeld<E(!new)>(c: Codec<E>, run: seq<State<E>>, i: nat, q: string) returns (w: nat)
    requires Sound(c) && IsRun(c, NoFaults, run) && i + 1 < |run|
    requires var was, now := OnDisk(c, run[i].dir, run[i].data, q), OnDisk(c, run[i + 1].dir, run[i + 1].data, q);
             was.Some? && now != was
    ensures Has(run[i], w, q, OnDisk(c, run[i].dir, run[i].data, q).value)
    ensures forall v: nat, e :: Has(run[i], v, q, e) ==> v == w
    ensures var now := OnDisk(c, run[i + 1].dir, run[i + 1].data, q); now.Some? ==> Has(run[i + 1], w, q, now.value)
  {
    RunKeepsInv(c, run, i);
    assert StepAt(c, NoFaults, run, i);
    var v: nat, a :| v < |run[i].phases| && Enabled(c, NoFaults, run[i], v, a) && run[i + 1] == Apply(c, NoFaults, run[i], v, a);
    w := v;
    ActionIsHeld(c, run[i], v, a, q);
    OneHas(c, run[i], w, q);
  }

  lemma ActionIsHeld<E(!new)>(c: Codec<E>, s: State<E>, w: nat, a: Action<E>, q: string)
    requires Sound(c) && Inv(c, s) && w < |s.phases| && Enabled(c, NoFaults, s, w, a)
    requires OnDisk(c, s.dir, s.data, q).Some?
    requires OnDisk(c, DirAfter(c, NoFaults, s, w, a), DataAfter(c, NoFaults, s, w, a), q) != OnDisk(c, s.dir, s.data, q)
    ensures Has(s, w, q, OnDisk(c, s.dir, s.data, q).value)
    ensures var t := Apply(c, NoFaults, s, w, a);
            OnDisk(c, t.dir, t.data, q).Some? ==> Has(t, w, q, OnDisk(c, t.dir, t.data, q).value)
  {
    if Changed(s, w, a) != Some(q) {
      OthersAfter(c, s, w, a, q);
    } else {
      ChangedAfter(c, s, w, a);
    }
  }

  lemma OneHas<E(!new)>(c: Codec<E>, s: State<E>, w: nat, q: string)
    requires Inv(c, s) && w < |s.phases| && s.phases[w].Owns(q)
    ensures forall v: nat, e :: Has(s, v, q, e) ==> v == w
  {
    InvImpliesExclusive(c, s);
    forall v: nat, e | Has(s, v, q, e) ensures v == w {
      assert s.phases[v].Owns(q);
    }
  }

  /** For as long as a worker has an entry in one version, in any run, that version is what is on disk. */
  lemma HeldIsOnDisk<E(!new)>(c: Codec<E>, run: seq<State<E>>, i: nat, w: nat, q: string, e: E)
    requires Sound(c) && IsRun(c, NoFaults, run) && i < |run| && Has(run[i], w, q, e)
    ensures OnDisk(c, run[i].dir, run[i].data, q) == Some(e)
    ensures forall v: nat, x :: Has(run[i], v, q, x) ==> v == w
  {
    RunKeepsInv(c, run, i);
    assert PhaseOk(c, run[i].dir, run[i].data, run[i].phases[w]);
    OneHas(c, run[i], w, q);
  }

  /** Worker `w` has opened a file that is no longer, or not, the one under the name. */
  ghost predicate Stale<E>(s: State<E>, w: nat) {
    && w < |s.phases|
    && (s.phases[w].Opened? || s.phases[w].Locked? || s.phases[w].Stated?)
    && !(Entry(s.phases[w].name) in s.dir && s.dir[Entry(s.phases[w].name)] == s.phases[w].ino)
  }

  /** A stale worker's own next step does not move the name to its inode. */
  lemma OwnStepStaysStale<E(!new)>(c: Codec<E>, s: State<E>, a: Action<E>, w: nat)
    requires Sound(c) && Inv(c, s) && w < |s.phases| && Enabled(c, NoFaults, s, w, a) && Stale(s, w)
    ensures var t := Apply(c, NoFaults, s, w, a); t.phases[w].Idle? || Stale(t, w)
  {
  }

  /** Where another worker's action leaves the name a worker has opened: nowhere, where it was, or at an
      inode that worker does not have open. */
  lemma NameAfter<E(!new)>(c: Codec<E>, s: State<E>, v: nat, a: Action<E>, q: string, i: Ino)
    requires Inv(c, s) && v < |s.phases| && Enabled(c, NoFaults, s, v, a)
    requires (s.phases[v].TempOpened? || s.phases[v].Writing? ==> s.phases[v].tino != i) && !Unused(s, i)
    ensures var dir := DirAfter(c, NoFaults, s, v, a);
            Entry(q) in dir && dir[Entry(q)] == i ==> Entry(q) in s.dir && s.dir[Entry(q)] == i
  {
  }

  /** An open inode is never put back under the name, so check_lock turns the worker away. */
  lemma StaleStaysStale<E(!new)>(c: Codec<E>, s: State<E>, v: nat, a: Action<E>, w: nat)
    requires Sound(c) && Inv(c, s) && v < |s.phases| && Enabled(c, NoFaults, s, v, a) && Stale(s, w)
    ensures var t := Apply(c, NoFaults, s, v, a); t.phases[w].Idle? || Stale(t, w)
  {
    if v == w {
      OwnStepStaysStale(c, s, a, w);
    } else {
      assert Apart(s.phases[v], s.phases[w]);
      assert s.phases[w].ino in s.phases[w].Opens();
      assert Apply(c, NoFaults, s, v, a).phases[w] == s.phases[w];
      NameAfter(c, s, v, a, s.phases[w].name, s.phases[w].ino);
    }
  }

  lemma StaleNext<E(!new)>(c: Codec<E>, s: State<E>, t: State<E>, w: nat)
    requires Sound(c) && Inv(c, s) && Next(c, NoFaults, s, t) && w < |s.phases|
    ensures |t.phases| == |s.phases|
    ensures Stale(s, w) ==> t.phases[w].Idle? || Stale(t, w)
  {
    var v: nat, a :| v < |s.phases| && Enabled(c, NoFaults, s, v, a) && t == Apply(c, NoFaults, s, v, a);
    if Stale(s, w) {
      StaleStaysStale(c, s, v, a, w);
    }
  }

  /** In every run a stale worker never comes to own the name: until it is turned away it stays stale. */
  lemma {:induction false} StaleUntilTurnedAway<E(!new)>(c: Codec<E>, run: seq<State<E>>, i: nat, j: nat, w: nat)
    requires Sound(c) && IsRun(c, NoFaults, run) && i <= j < |run| && Stale(run[i], w)
    requires forall k :: i < k <= j ==> w < |run[k].phases| && !run[k].phases[w].Idle?
    ensures Stale(run[j], w)
  {
    if i < j {
      StaleUntilTurnedAway(c, run, i, j - 1, w);
      RunKeepsInv(c, run, j - 1);
      assert StepAt(c, NoFaults, run, j - 1);
      StaleNext(c, run[j - 1], run[j], w);
    }
  }
}
