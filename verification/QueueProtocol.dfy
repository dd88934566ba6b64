/**
  The file queue as a concurrent, crashable protocol.

  Workers open a queue file, flock it, compare the descriptor with the name (check_lock), read the
  envelope, rewrite it through a locked temporary file that is renamed over the name, or unlink it.
  Every system call is one action; actions of different workers interleave freely, and any set of
  workers may crash between two actions, which drops their locks and keeps the files.
 */
module QueueProtocol {
  import opened Wrappers

  type Ino = nat

  /** A directory entry: a queue file, or the temporary file of one update of it. */
  datatype Name = Entry(q: string) | Temp(q: string, tag: int)

  /** How envelopes become bytes. The reader's clock supplies defaults for absent fields. Files come into
      being in one of two ways: empty, by open, if an empty file stands for something, the `blank` content;
      otherwise by mkqf, which fills them under a lock. */
  datatype Codec<!E> = Codec(valid: E -> bool, encode: E -> string, decode: (int, string) -> Option<E>, blank: Option<E>)

  /** What the protocol needs of the codec: complete files decode to what was written, at any time; and
      an empty file is the blank content, or else no proper prefix of a file decodes at all. */
  ghost predicate Sound<E(!new)>(c: Codec<E>) {
    && (forall e, now :: c.valid(e) ==> c.decode(now, c.encode(e)) == Some(e))
    && (c.blank.Some? ==> c.valid(c.blank.value) && c.encode(c.blank.value) == "")
    && (c.blank.None? ==> forall e :: c.valid(e) ==> c.encode(e) != "")
    && (c.blank.None? ==> forall e, p, now :: c.valid(e) && p < c.encode(e) ==> c.decode(now, p) == None)
  }

  /** What may go wrong besides crashes: flock fails on a file just created for a reason other than another
      holder (`hard`), or a write stores less than it was given, which the code does not notice (`short`). */
  datatype Faults = Faults(hard: bool, short: bool)

  const NoFaults: Faults := Faults(false, false)

  /** Where a worker is inside mms_queue_readenvelope, writeenvelope, mkqf or free_envelope. */
  datatype Phase<+E> =
    | Idle
    | Opened(name: string, ino: Ino)
    | Locked(name: string, ino: Ino)
    | Stated(name: string, ino: Ino, size: nat, links: nat)
    | Checked(name: string, ino: Ino)
    | Holding(name: string, ino: Ino, env: E)
    | TempOpened(name: string, ino: Ino, env: E, tag: int, tino: Ino, next: E)
    | Writing(name: string, ino: Ino, env: E, tag: int, tino: Ino, next: E, rest: string)
    | Swapped(name: string, ino: Ino, env: E, stale: Ino)
    | Unlinked(name: string, ino: Ino)
    | Made(name: string, ino: Ino, env: E)
    | MadeLocked(name: string, ino: Ino, env: E)
    | MadeStated(name: string, ino: Ino, env: E, size: nat, links: nat)
    | Filling(name: string, ino: Ino, env: E, rest: string)
  {
    /** The inodes this worker has open. */
    function Opens(): set<Ino> {
      match this
      case Idle => {}
      case TempOpened(_, i, _, _, t, _) => {i, t}
      case Writing(_, i, _, _, t, _, _) => {i, t}
      case Swapped(_, i, _, o) => {i, o}
      case _ => {ino}
    }

    /** The inodes this worker has flocked. */
    function Locks(): set<Ino> {
      match this
      case Idle => {}
      case Opened(_, _) => {}
      case Made(_, _, _) => {}
      case TempOpened(_, i, _, _, _, _) => {i}
      case _ => Opens()
    }

    /** mm_lockfile has succeeded on the queue file and the file is not yet given up. */
    predicate Owns(q: string) {
      match this
      case Checked(n, _) => n == q
      case Holding(n, _, _) => n == q
      case TempOpened(n, _, _, _, _, _) => n == q
      case Writing(n, _, _, _, _, _, _) => n == q
      case Swapped(n, _, _, _) => n == q
      case Filling(n, _, _, _) => n == q
      case _ => false
    }

    /** The worker has an envelope it read or wrote under this name. */
    predicate Holds() {
      Holding? || TempOpened? || Writing? || Swapped?
    }

    /** The worker is creating an entry and has not finished writing it. */
    predicate Making() {
      Made? || MadeLocked? || MadeStated? || (Filling? && rest != "")
    }
  }

  datatype State<+E> = State(dir: map<Name, Ino>, data: map<Ino, string>, locks: map<Ino, nat>, phases: seq<Phase<E>>)

  datatype Action<+E> =
    | Open(q: string) | Create(q: string, ino: Ino) | GiveUp | Lock | Fstat | Stat | Read(now: int)
    | TempCreate(tag: int, tino: Ino, next: E) | TempFail | TempLock | Write(k: nat) | Lose(k: nat)
    | Rename | RenameFail | CloseStale | Unlink | CloseUnlinked | Release
    | Make(q: string, ino: Ino, env: E) | MakeLock | MakeLockError | MakeFstat | MakeStat | Fill(k: nat) | FillDone
    | Crash

  // ---- file system helpers ----

  /** An inode the file system may hand out: no name points to it and nobody has it open. */
  ghost predicate Unused<E>(s: State<E>, i: Ino) {
    i !in s.dir.Values && forall w :: 0 <= w < |s.phases| ==> i !in s.phases[w].Opens()
  }

  /** st_nlink. */
  ghost function Links(dir: map<Name, Ino>, i: Ino): nat {
    |set n | n in dir && dir[n] == i|
  }

  ghost function Content(data: map<Ino, string>, i: Ino): string {
    if i in data then data[i] else ""
  }

  /** The comparison check_lock makes between the descriptor and the name. */
  ghost predicate SameFile<E>(s: State<E>, q: string, i: Ino, size: nat, links: nat) {
    && Entry(q) in s.dir
    && s.dir[Entry(q)] == i
    && size == |Content(s.data, i)|
    && links == Links(s.dir, i)
  }

  // ---- the actions ----

  /** When worker `w` may take action `a`. */
  ghost predicate Enabled<E(!new)>(c: Codec<E>, faults: Faults, s: State<E>, w: nat, a: Action<E>)
    requires w < |s.phases|
  {
    var p := s.phases[w];
    match a
    case Open(q) => p.Idle? && Entry(q) in s.dir
    case Create(q, i) => p.Idle? && c.blank.Some? && Entry(q) !in s.dir && Unused(s, i)
    case GiveUp => p.Opened?
    case Lock => p.Opened? && p.ino !in s.locks
    case Fstat => p.Locked?
    case Stat => p.Stated?
    case Read(_) => p.Checked?
    case TempCreate(tag, tino, next) => p.Holding? && Temp(p.name, tag) !in s.dir && Unused(s, tino) && c.valid(next)
    case TempFail => p.TempOpened?
    case TempLock => p.TempOpened? && p.tino !in s.locks && Temp(p.name, p.tag) in s.dir && s.dir[Temp(p.name, p.tag)] == p.tino
    case Write(k) => p.Writing? && 0 < k <= |p.rest|
    case Lose(k) => faults.short && (p.Writing? || p.Filling?) && 0 < k <= |p.rest|
    case Rename => p.Writing? && p.rest == ""
    case RenameFail => p.Writing? && p.rest == ""
    case CloseStale => p.Swapped?
    case Unlink => p.Holding?
    case CloseUnlinked => p.Unlinked?
    case Release => p.Holding?
    case Make(q, i, e) => p.Idle? && c.blank.None? && Entry(q) !in s.dir && Unused(s, i) && c.valid(e)
    case MakeLock => p.Made? && p.ino !in s.locks
    case MakeLockError => faults.hard && c.blank.None? && p.Made?
    case MakeFstat => p.MadeLocked?
    case MakeStat => p.MadeStated?
    case Fill(k) => p.Filling? && 0 < k <= |p.rest|
    case FillDone => p.Filling? && p.rest == ""
    case Crash => true
  }

  /** Moves worker `w` to phase `p`, with the lock table that follows from the phases' locks. */
  ghost function Move<E>(s: State<E>, w: nat, p: Phase<E>): State<E>
    requires w < |s.phases|
  {
    var kept := s.locks.Keys - s.phases[w].Locks() + p.Locks();
    s.(phases := s.phases[w := p], locks := map i | i in kept :: if i in p.Locks() then w else s.locks[i])
  }

  /** The phase action `a` of worker `w` leads to. */
  ghost function Target<E(!new)>(c: Codec<E>, faults: Faults, s: State<E>, w: nat, a: Action<E>): Phase<E>
    requires w < |s.phases| && Enabled(c, faults, s, w, a)
  {
    var p := s.phases[w];
    match a
    case Open(q) => Opened(q, s.dir[Entry(q)])
    case Create(q, i) => Opened(q, i)
    case GiveUp => Idle
    case Lock => Locked(p.name, p.ino)
    case Fstat => Stated(p.name, p.ino, |Content(s.data, p.ino)|, Links(s.dir, p.ino))
    case Stat => if SameFile(s, p.name, p.ino, p.size, p.links) then Checked(p.name, p.ino) else Idle
    case Read(now) => // by name, not through the descriptor; a missing file reads as the empty string
      var bytes := if Entry(p.name) in s.dir then Content(s.data, s.dir[Entry(p.name)]) else "";
      (match c.decode(now, bytes)
       case Some(e) => Holding(p.name, p.ino, e)
       case None => Idle)
    case TempCreate(tag, tino, next) => TempOpened(p.name, p.ino, p.env, tag, tino, next)
    case TempFail => Holding(p.name, p.ino, p.env)
    case TempLock => Writing(p.name, p.ino, p.env, p.tag, p.tino, p.next, c.encode(p.next))
    case Write(k) => Writing(p.name, p.ino, p.env, p.tag, p.tino, p.next, p.rest[k..])
    case Lose(k) => p.(rest := p.rest[k..])
    case Rename => Swapped(p.name, p.tino, p.next, p.ino)
    case RenameFail => Holding(p.name, p.ino, p.env)
    case CloseStale => Holding(p.name, p.ino, p.env)
    case Unlink => Unlinked(p.name, p.ino)
    case CloseUnlinked => Idle
    case Release => Idle
    case Make(q, i, e) => Made(q, i, e)
    case MakeLock => MadeLocked(p.name, p.ino, p.env)
    case MakeLockError => Idle
    case MakeFstat => MadeStated(p.name, p.ino, p.env, |Content(s.data, p.ino)|, Links(s.dir, p.ino))
    case MakeStat =>
      if SameFile(s, p.name, p.ino, p.size, p.links) then Filling(p.name, p.ino, p.env, c.encode(p.env)) else Idle
    case Fill(k) => Filling(p.name, p.ino, p.env, p.rest[k..])
    case FillDone => Idle
    case Crash => Idle
  }

  /** The directory after action `a`: create, rename and unlink change names. */
  ghost function DirAfter<E(!new)>(c: Codec<E>, faults: Faults, s: State<E>, w: nat, a: Action<E>): map<Name, Ino>
    requires w < |s.phases| && Enabled(c, faults, s, w, a)
  {
    var p := s.phases[w];
    match a
    case TempCreate(tag, tino, _) => s.dir[Temp(p.name, tag) := tino]
    case Rename => (s.dir - {Temp(p.name, p.tag)})[Entry(p.name) := p.tino]
    case Unlink => s.dir - {Entry(p.name)}
    case Make(q, i, _) => s.dir[Entry(q) := i]
    case Create(q, i) => s.dir[Entry(q) := i]
    case MakeLockError => s.dir - {Entry(p.name)}
    case MakeStat => if SameFile(s, p.name, p.ino, p.size, p.links) then s.dir else s.dir - {Entry(p.name)}
    case _ => s.dir
  }

  /** The file contents after action `a`: creation empties an inode, a write appends. */
  ghost function DataAfter<E(!new)>(c: Codec<E>, faults: Faults, s: State<E>, w: nat, a: Action<E>): map<Ino, string>
    requires w < |s.phases| && Enabled(c, faults, s, w, a)
  {
    var p := s.phases[w];
    match a
    case TempCreate(_, tino, _) => s.data[tino := ""]
    case Make(_, i, _) => s.data[i := ""]
    case Create(_, i) => s.data[i := ""]
    case Write(k) => s.data[p.tino := Content(s.data, p.tino) + p.rest[..k]]
    case Fill(k) => s.data[p.ino := Content(s.data, p.ino) + p.rest[..k]]
    case _ => s.data
  }

  ghost function Apply<E(!new)>(c: Codec<E>, faults: Faults, s: State<E>, w: nat, a: Action<E>): State<E>
    requires w < |s.phases| && Enabled(c, faults, s, w, a)
  {
    Move(s.(dir := DirAfter(c, faults, s, w, a), data := DataAfter(c, faults, s, w, a)), w, Target(c, faults, s, w, a))
  }

  /** One step of the whole system; a crash of several workers is several Crash steps. */
  ghost predicate Next<E(!new)>(c: Codec<E>, faults: Faults, s: State<E>, t: State<E>) {
    exists w: nat, a :: w < |s.phases| && Enabled(c, faults, s, w, a) && t == Apply(c, faults, s, w, a)
  }

  /** Start-up: nobody has anything open; the directory holds whole entries, entries cut short by an
      earlier crash, and left-over temporary files. */
  ghost predicate Init<E(!new)>(c: Codec<E>, s: State<E>) {
    && (forall w :: 0 <= w < |s.phases| ==> s.phases[w].Idle?)
    && s.locks == map[]
    && Injective(s.dir)
    && EntriesOk(c, s.dir, s.data)
  }

  ghost predicate IsRun<E(!new)>(c: Codec<E>, faults: Faults, run: seq<State<E>>) {
    && run != []
    && Init(c, run[0])
    && forall i :: 0 <= i < |run| - 1 ==> StepAt(c, faults, run, i)
  }

  ghost predicate StepAt<E(!new)>(c: Codec<E>, faults: Faults, run: seq<State<E>>, i: int)
    requires 0 <= i < |run| - 1
  {
    Next(c, faults, run[i], run[i + 1])
  }

  // ---- the invariant ----

  ghost predicate Injective(dir: map<Name, Ino>) {
    forall m, n :: m in dir && n in dir && dir[m] == dir[n] ==> m == n
  }

  /** The bytes are one whole envelope, or nothing a reader accepts. */
  ghost predicate WholeOrNone<E(!new)>(c: Codec<E>, bytes: string) {
    (exists e :: c.valid(e) && bytes == c.encode(e)) || (forall now :: c.decode(now, bytes) == None)
  }

  ghost predicate EntriesOk<E(!new)>(c: Codec<E>, dir: map<Name, Ino>, data: map<Ino, string>) {
    forall q :: Entry(q) in dir ==> WholeOrNone(c, Content(data, dir[Entry(q)]))
  }

  /** What a phase says about the files. */
  ghost predicate PhaseOk<E(!new)>(c: Codec<E>, dir: map<Name, Ino>, data: map<Ino, string>, p: Phase<E>) {
    && (p.Checked? || p.Holds() || p.Making() || p.Filling? ==> Entry(p.name) in dir && dir[Entry(p.name)] == p.ino)
    && (p.Holds() ==> c.valid(p.env) && Content(data, p.ino) == c.encode(p.env))
    && (p.TempOpened? || p.Writing? ==>
          && p.ino != p.tino
          && c.valid(p.next)
          && Temp(p.name, p.tag) in dir && dir[Temp(p.name, p.tag)] == p.tino
          && Content(data, p.tino) + (if p.Writing? then p.rest else c.encode(p.next)) == c.encode(p.next))
    && (p.Swapped? ==> p.ino != p.stale && p.stale !in dir.Values)
    && (p.Unlinked? ==> p.ino !in dir.Values)
    && (p.Made? || p.MadeLocked? || p.MadeStated? || p.Filling? ==> c.blank.None?)
    && (p.Made? || p.MadeLocked? || p.MadeStated? ==> c.valid(p.env) && Content(data, p.ino) == "")
    && (p.MadeStated? ==> p.size == 0 && p.links == 1)
    && (p.Filling? ==> c.valid(p.env) && Content(data, p.ino) + p.rest == c.encode(p.env))
  }

  /** The lock table is exactly the locks the phases claim, each by one worker. */
  ghost predicate LocksOk<E>(locks: map<Ino, nat>, phases: seq<Phase<E>>) {
    && (forall i :: i in locks ==> locks[i] < |phases| && i in phases[locks[i]].Locks())
    && (forall w, i :: 0 <= w < |phases| && i in phases[w].Locks() ==> i in locks && locks[i] == w)
  }

  /** No two unfinished creators share a name; nobody else has a worker's temporary file open. */
  ghost predicate Apart<E>(p: Phase<E>, r: Phase<E>) {
    && (p.Making() && r.Making() ==> p.name != r.name)
    && (p.TempOpened? || p.Writing? ==> p.tino !in r.Opens())
    && (r.TempOpened? || r.Writing? ==> r.tino !in p.Opens())
  }

  ghost predicate Inv<E(!new)>(c: Codec<E>, s: State<E>) {
    && Injective(s.dir)
    && EntriesOk(c, s.dir, s.data)
    && LocksOk(s.locks, s.phases)
    && (forall w :: 0 <= w < |s.phases| ==> PhaseOk(c, s.dir, s.data, s.phases[w]))
    && (forall v, w :: 0 <= v < |s.phases| && 0 <= w < |s.phases| && v != w ==> Apart(s.phases[v], s.phases[w]))
  }

  /** Every lock a phase claims after a move is in the table. */
  lemma ClaimsAreLocked<E>(s: State<E>, w: nat, p: Phase<E>, v: nat, i: Ino)
    requires w < |s.phases| && LocksOk(s.locks, s.phases)
    requires forall i :: i in p.Locks() && i !in s.phases[w].Locks() ==> i !in s.locks
    requires v < |s.phases| && i in s.phases[w := p][v].Locks()
    ensures i in Move(s, w, p).locks && Move(s, w, p).locks[i] == v
  {
    if v != w {
      assert i in s.locks && s.locks[i] == v;
    }
  }

  /** Every lock in the table after a move is claimed. */
  lemma LocksAreClaimed<E>(s: State<E>, w: nat, p: Phase<E>, i: Ino)
    requires w < |s.phases| && LocksOk(s.locks, s.phases) && i in Move(s, w, p).locks
    ensures var v := Move(s, w, p).locks[i]; v < |s.phases| && i in s.phases[w := p][v].Locks()
  {
    if i !in p.Locks() {
      assert i in s.locks && s.locks[i] != w;
    }
  }

  /** Changing one phase keeps the lock table exact, provided newly claimed locks are free. */
  lemma MoveKeepsLocks<E>(s: State<E>, w: nat, p: Phase<E>)
    requires w < |s.phases| && LocksOk(s.locks, s.phases)
    requires forall i :: i in p.Locks() && i !in s.phases[w].Locks() ==> i !in s.locks
    ensures LocksOk(Move(s, w, p).locks, Move(s, w, p).phases)
  {
    var t := Move(s, w, p);
    forall v, i | 0 <= v < |t.phases| && i in t.phases[v].Locks() ensures i in t.locks && t.locks[i] == v {
      ClaimsAreLocked(s, w, p, v, i);
    }
    forall i | i in t.locks ensures t.locks[i] < |t.phases| && i in t.phases[t.locks[i]].Locks() {
      LocksAreClaimed(s, w, p, i);
    }
  }

  /** An inode with one name has link count one. */
  lemma LinksOne(dir: map<Name, Ino>, n: Name)
    requires Injective(dir) && n in dir
    ensures Links(dir, dir[n]) == 1
  {
    assert (set m | m in dir && dir[m] == dir[n]) == {n};
  }

  /** Steps that touch no file: opening, locking, looking, closing. */
  lemma MoveKeepsInv<E(!new)>(c: Codec<E>, s: State<E>, w: nat, p: Phase<E>)
    requires Inv(c, s) && w < |s.phases| && PhaseOk(c, s.dir, s.data, p)
    requires forall i :: i in p.Locks() && i !in s.phases[w].Locks() ==> i !in s.locks
    requires forall v :: 0 <= v < |s.phases| && v != w ==> Apart(s.phases[v], p)
    ensures Inv(c, Move(s, w, p))
  {
    MoveKeepsLocks(s, w, p);
    var t := Move(s, w, p);
    forall v, u | 0 <= v < |t.phases| && 0 <= u < |t.phases| && v != u ensures Apart(t.phases[v], t.phases[u]) {
      assert Apart(s.phases[v], s.phases[u]);
    }
  }

  /** Steps that change files and then move: the other workers' phases must still hold. */
  lemma ChangeKeepsInv<E(!new)>(c: Codec<E>, s: State<E>, dir: map<Name, Ino>, data: map<Ino, string>, w: nat, p: Phase<E>)
    requires Inv(c, s) && w < |s.phases| && Injective(dir) && EntriesOk(c, dir, data) && PhaseOk(c, dir, data, p)
    requires forall i :: i in p.Locks() && i !in s.phases[w].Locks() ==> i !in s.locks
    requires forall v :: 0 <= v < |s.phases| && v != w ==> PhaseOk(c, dir, data, s.phases[v]) && Apart(s.phases[v], p)
    ensures Inv(c, Move(s.(dir := dir, data := data), w, p))
  {
    MoveKeepsLocks(s, w, p);
    var t := Move(s.(dir := dir, data := data), w, p);
    assert t.locks == Move(s, w, p).locks && t.phases == Move(s, w, p).phases;
    forall v, u | 0 <= v < |t.phases| && 0 <= u < |t.phases| && v != u ensures Apart(t.phases[v], t.phases[u]) {
      assert Apart(s.phases[v], s.phases[u]);
    }
  }

  /** A new temporary file changes nothing for any phase. */
  lemma TempIsNew<E(!new)>(c: Codec<E>, s: State<E>, v: nat, n: Name, i: Ino)
    requires Inv(c, s) && v < |s.phases| && n.Temp? && n !in s.dir && Unused(s, i)
    ensures PhaseOk(c, s.dir[n := i], s.data[i := ""], s.phases[v])
  {
    assert i !in s.phases[v].Opens();
    assert s.dir[n := i].Values <= s.dir.Values + {i};
  }

  lemma TempIsApart<E(!new)>(c: Codec<E>, s: State<E>, w: nat, v: nat, r: Phase<E>)
    requires Inv(c, s) && w < |s.phases| && s.phases[w].Holding? && v < |s.phases| && v != w
    requires r.TempOpened? && r.ino == s.phases[w].ino && Unused(s, r.tino)
    ensures Apart(s.phases[v], r)
  {
    assert Apart(s.phases[v], s.phases[w]) && PhaseOk(c, s.dir, s.data, s.phases[v]) && PhaseOk(c, s.dir, s.data, s.phases[w]);
  }

  lemma DirWithTemp<E(!new)>(c: Codec<E>, s: State<E>, n: Name, i: Ino)
    requires Inv(c, s) && n.Temp? && n !in s.dir && Unused(s, i)
    ensures Injective(s.dir[n := i]) && EntriesOk(c, s.dir[n := i], s.data[i := ""])
  {
  }

  lemma TempCreateKeepsInv<E(!new)>(c: Codec<E>, s: State<E>, w: nat, a: Action<E>)
    requires Sound(c) && Inv(c, s) && w < |s.phases| && a.TempCreate? && Enabled(c, NoFaults, s, w, a)
    ensures Inv(c, Apply(c, NoFaults, s, w, a))
  {
    var p := s.phases[w];
    var n, r := Temp(p.name, a.tag), TempOpened(p.name, p.ino, p.env, a.tag, a.tino, a.next);
    var dir, data := s.dir[n := a.tino], s.data[a.tino := ""];
    DirWithTemp(c, s, n, a.tino);
    forall v | 0 <= v < |s.phases| ensures PhaseOk(c, dir, data, s.phases[v]) && (v != w ==> Apart(s.phases[v], r)) {
      TempIsNew(c, s, v, n, a.tino);
      if v != w {
        TempIsApart(c, s, w, v, r);
      }
    }
    assert "" + c.encode(a.next) == c.encode(a.next);
    ChangeKeepsInv(c, s, dir, data, w, r);
  }

  /** Nobody else has the temporary file open. */
  lemma WriteFor<E(!new)>(c: Codec<E>, s: State<E>, w: nat, v: nat, bytes: string)
    requires Inv(c, s) && w < |s.phases| && s.phases[w].Writing? && v < |s.phases| && v != w
    ensures PhaseOk(c, s.dir, s.data[s.phases[w].tino := bytes], s.phases[v])
  {
    assert Apart(s.phases[v], s.phases[w]) && PhaseOk(c, s.dir, s.data, s.phases[v]);
  }

  lemma WriteKeepsInv<E(!new)>(c: Codec<E>, s: State<E>, w: nat, a: Action<E>)
    requires Sound(c) && Inv(c, s) && w < |s.phases| && a.Write? && Enabled(c, NoFaults, s, w, a)
    ensures Inv(c, Apply(c, NoFaults, s, w, a))
  {
    var p := s.phases[w];
    var bytes := Content(s.data, p.tino) + p.rest[..a.k];
    var data := s.data[p.tino := bytes];
    assert PhaseOk(c, s.dir, s.data, p);
    assert bytes + p.rest[a.k..] == c.encode(p.next);
    forall v | 0 <= v < |s.phases| && v != w ensures PhaseOk(c, s.dir, data, s.phases[v]) {
      WriteFor(c, s, w, v, bytes);
    }
    ChangeKeepsInv(c, s, s.dir, data, w, Writing(p.name, p.ino, p.env, p.tag, p.tino, p.next, p.rest[a.k..]));
  }

  /** The owner of a name may point it elsewhere or remove it: no other phase relies on the name. */
  lemma OnlyOwnerReliesOnName<E(!new)>(c: Codec<E>, s: State<E>, w: nat, v: nat)
    requires Sound(c) && Inv(c, s) && w < |s.phases| && v < |s.phases| && v != w
    requires s.phases[w].Holds() || s.phases[w].Filling?
    requires s.phases[v].Checked? || s.phases[v].Holds() || s.phases[v].Making() || s.phases[v].Filling?
    ensures s.phases[v].name != s.phases[w].name
  {
    var p, r := s.phases[w], s.phases[v];
    assert PhaseOk(c, s.dir, s.data, p) && PhaseOk(c, s.dir, s.data, r) && Apart(r, p);
    assert p.ino in s.phases[w].Locks() && s.locks[p.ino] == w;
    assert !r.Made? ==> r.ino in s.phases[v].Locks() && s.locks[r.ino] == v;
    assert r.Made? ==> c.encode(p.env) != "";
  }

  /** Renaming over the owned name disturbs no other phase. */
  lemma RenameFor<E(!new)>(c: Codec<E>, s: State<E>, w: nat, v: nat)
    requires Sound(c) && Inv(c, s) && w < |s.phases| && s.phases[w].Writing? && v < |s.phases| && v != w
    ensures var p := s.phases[w];
            var dir := (s.dir - {Temp(p.name, p.tag)})[Entry(p.name) := p.tino];
            PhaseOk(c, dir, s.data, s.phases[v]) && Apart(s.phases[v], Swapped(p.name, p.tino, p.next, p.ino))
  {
    var p, r := s.phases[w], s.phases[v];
    var dir := (s.dir - {Temp(p.name, p.tag)})[Entry(p.name) := p.tino];
    assert Apart(r, p) && PhaseOk(c, s.dir, s.data, p) && PhaseOk(c, s.dir, s.data, r);
    if r.Checked? || r.Holds() || r.Making() || r.Filling? {
      OnlyOwnerReliesOnName(c, s, w, v);
    }
    assert dir.Values <= s.dir.Values;
  }

  lemma RenameKeepsInv<E(!new)>(c: Codec<E>, s: State<E>, w: nat, a: Action<E>)
    requires Sound(c) && Inv(c, s) && w < |s.phases| && a.Rename? && Enabled(c, NoFaults, s, w, a)
    ensures Inv(c, Apply(c, NoFaults, s, w, a))
  {
    var p := s.phases[w];
    var dir := (s.dir - {Temp(p.name, p.tag)})[Entry(p.name) := p.tino];
    forall v | 0 <= v < |s.phases| && v != w
      ensures PhaseOk(c, dir, s.data, s.phases[v]) && Apart(s.phases[v], Swapped(p.name, p.tino, p.next, p.ino))
    {
      RenameFor(c, s, w, v);
    }
    RenamedOk(c, s, w);
    ChangeKeepsInv(c, s, dir, s.data, w, Swapped(p.name, p.tino, p.next, p.ino));
  }

  /** The directory after a rename: names still differ in their inodes, and entries are whole. */
  lemma RenamedOk<E(!new)>(c: Codec<E>, s: State<E>, w: nat)
    requires Sound(c) && Inv(c, s) && w < |s.phases| && s.phases[w].Writing? && s.phases[w].rest == ""
    ensures var p := s.phases[w];
            var dir := (s.dir - {Temp(p.name, p.tag)})[Entry(p.name) := p.tino];
            Injective(dir) && EntriesOk(c, dir, s.data) && PhaseOk(c, dir, s.data, Swapped(p.name, p.tino, p.next, p.ino))
  {
    var p := s.phases[w];
    assert PhaseOk(c, s.dir, s.data, p);
    assert Content(s.data, p.tino) + p.rest == Content(s.data, p.tino);
  }

  /** Removing the owned name disturbs no other phase. */
  lemma UnlinkFor<E(!new)>(c: Codec<E>, s: State<E>, w: nat, v: nat)
    requires Sound(c) && Inv(c, s) && w < |s.phases| && s.phases[w].Holding? && v < |s.phases| && v != w
    ensures var p := s.phases[w];
            PhaseOk(c, s.dir - {Entry(p.name)}, s.data, s.phases[v]) && Apart(s.phases[v], Unlinked(p.name, p.ino))
  {
    var p, r := s.phases[w], s.phases[v];
    assert Apart(r, p) && PhaseOk(c, s.dir, s.data, r);
    if r.Checked? || r.Holds() || r.Making() || r.Filling? {
      OnlyOwnerReliesOnName(c, s, w, v);
    }
    assert (s.dir - {Entry(p.name)}).Values <= s.dir.Values;
  }

  lemma UnlinkKeepsInv<E(!new)>(c: Codec<E>, s: State<E>, w: nat, a: Action<E>)
    requires Sound(c) && Inv(c, s) && w < |s.phases| && a.Unlink? && Enabled(c, NoFaults, s, w, a)
    ensures Inv(c, Apply(c, NoFaults, s, w, a))
  {
    var p := s.phases[w];
    var dir := s.dir - {Entry(p.name)};
    forall v | 0 <= v < |s.phases| && v != w
      ensures PhaseOk(c, dir, s.data, s.phases[v]) && Apart(s.phases[v], Unlinked(p.name, p.ino))
    {
      UnlinkFor(c, s, w, v);
    }
    assert PhaseOk(c, s.dir, s.data, p);
    ChangeKeepsInv(c, s, dir, s.data, w, Unlinked(p.name, p.ino));
  }

  lemma MakeKeepsInv<E(!new)>(c: Codec<E>, s: State<E>, w: nat, a: Action<E>)
    requires Sound(c) && Inv(c, s) && w < |s.phases| && a.Make? && Enabled(c, NoFaults, s, w, a)
    ensures Inv(c, Apply(c, NoFaults, s, w, a))
  {
    var dir, data := s.dir[Entry(a.q) := a.ino], s.data[a.ino := ""];
    assert "" < c.encode(a.env);
    forall v | 0 <= v < |s.phases| && v != w
      ensures PhaseOk(c, dir, data, s.phases[v]) && Apart(s.phases[v], Made(a.q, a.ino, a.env))
    {
      var r := s.phases[v];
      assert dir.Values <= s.dir.Values + {a.ino};
    }
    ChangeKeepsInv(c, s, dir, data, w, Made(a.q, a.ino, a.env));
  }

  lemma CreateKeepsInv<E(!new)>(c: Codec<E>, s: State<E>, w: nat, a: Action<E>)
    requires Sound(c) && Inv(c, s) && w < |s.phases| && a.Create? && Enabled(c, NoFaults, s, w, a)
    ensures Inv(c, Apply(c, NoFaults, s, w, a))
  {
    var dir, data := s.dir[Entry(a.q) := a.ino], s.data[a.ino := ""];
    assert c.valid(c.blank.value) && c.encode(c.blank.value) == Content(data, a.ino);
    forall v | 0 <= v < |s.phases| && v != w
      ensures PhaseOk(c, dir, data, s.phases[v]) && Apart(s.phases[v], Opened(a.q, a.ino))
    {
      assert dir.Values <= s.dir.Values + {a.ino};
    }
    ChangeKeepsInv(c, s, dir, data, w, Opened(a.q, a.ino));
  }

  /** Nobody else relies on the content of a file that is being filled. */
  lemma FillFor<E(!new)>(c: Codec<E>, s: State<E>, w: nat, v: nat, bytes: string, rest: string)
    requires Sound(c) && Inv(c, s) && w < |s.phases| && s.phases[w].Filling? && s.phases[w].rest != "" && v < |s.phases| && v != w
    ensures var p := s.phases[w];
            PhaseOk(c, s.dir, s.data[p.ino := bytes], s.phases[v]) && Apart(s.phases[v], Filling(p.name, p.ino, p.env, rest))
  {
    var p, r := s.phases[w], s.phases[v];
    assert Apart(r, p) && PhaseOk(c, s.dir, s.data, r) && PhaseOk(c, s.dir, s.data, p);
    if r.Checked? || r.Holds() || r.Making() || r.Filling? {
      OnlyOwnerReliesOnName(c, s, w, v);
    }
  }

  lemma FillKeepsInv<E(!new)>(c: Codec<E>, s: State<E>, w: nat, a: Action<E>)
    requires Sound(c) && Inv(c, s) && w < |s.phases| && a.Fill? && Enabled(c, NoFaults, s, w, a)
    ensures Inv(c, Apply(c, NoFaults, s, w, a))
  {
    var p := s.phases[w];
    var data := s.data[p.ino := Content(s.data, p.ino) + p.rest[..a.k]];
    assert Content(data, p.ino) + p.rest[a.k..] == c.encode(p.env);
    assert WholeOrNone(c, Content(data, p.ino)) by {
      if p.rest[a.k..] != "" {
        assert Content(data, p.ino) < c.encode(p.env);
      }
    }
    forall v | 0 <= v < |s.phases| && v != w
      ensures PhaseOk(c, s.dir, data, s.phases[v]) && Apart(s.phases[v], Filling(p.name, p.ino, p.env, p.rest[a.k..]))
    {
      FillFor(c, s, w, v, Content(s.data, p.ino) + p.rest[..a.k], p.rest[a.k..]);
    }
    ChangeKeepsInv(c, s, s.dir, data, w, Filling(p.name, p.ino, p.env, p.rest[a.k..]));
  }

  /** Reading by name finds the locked inode's bytes, because a checked worker owns the name. */
  lemma ReadKeepsInv<E(!new)>(c: Codec<E>, s: State<E>, w: nat, a: Action<E>)
    requires Sound(c) && Inv(c, s) && w < |s.phases| && a.Read? && Enabled(c, NoFaults, s, w, a)
    ensures Inv(c, Apply(c, NoFaults, s, w, a))
  {
    var p := s.phases[w];
    assert PhaseOk(c, s.dir, s.data, p);
    var bytes := Content(s.data, s.dir[Entry(p.name)]);
    match c.decode(a.now, bytes)
    case None => MoveKeepsInv(c, s, w, Idle);
    case Some(e) =>
      assert WholeOrNone(c, bytes);
      MoveKeepsInv(c, s, w, Holding(p.name, p.ino, e));
  }

  /** The whole step relation keeps the invariant when a fresh file can always be locked. */
  lemma NextKeepsInv<E(!new)>(c: Codec<E>, s: State<E>, w: nat, a: Action<E>)
    requires Sound(c) && Inv(c, s) && w < |s.phases| && Enabled(c, NoFaults, s, w, a)
    ensures Inv(c, Apply(c, NoFaults, s, w, a))
  {
    if Quiet(a) {
      QuietKeepsInv(c, s, w, a);
    } else if a.Make? || a.Create? || a.Fill? || a.Read? {
      MakingKeepsInv(c, s, w, a);
    } else {
      UpdatingKeepsInv(c, s, w, a);
    }
  }

  /** Making a file, filling it, and reading. */
  lemma MakingKeepsInv<E(!new)>(c: Codec<E>, s: State<E>, w: nat, a: Action<E>)
    requires Sound(c) && Inv(c, s) && w < |s.phases| && Enabled(c, NoFaults, s, w, a)
    requires a.Make? || a.Create? || a.Fill? || a.Read?
    ensures Inv(c, Apply(c, NoFaults, s, w, a))
  {
    if a.Make? {
      MakeKeepsInv(c, s, w, a);
    } else if a.Create? {
      CreateKeepsInv(c, s, w, a);
    } else if a.Fill? {
      FillKeepsInv(c, s, w, a);
    } else {
      ReadKeepsInv(c, s, w, a);
    }
  }

  /** Writing a temporary file, renaming it over the entry, and removing the entry. */
  lemma UpdatingKeepsInv<E(!new)>(c: Codec<E>, s: State<E>, w: nat, a: Action<E>)
    requires Sound(c) && Inv(c, s) && w < |s.phases| && Enabled(c, NoFaults, s, w, a)
    requires a.TempCreate? || a.Write? || a.Rename? || a.Unlink?
    ensures Inv(c, Apply(c, NoFaults, s, w, a))
  {
    if a.TempCreate? {
      TempCreateKeepsInv(c, s, w, a);
    } else if a.Write? {
      WriteKeepsInv(c, s, w, a);
    } else if a.Rename? {
      RenameKeepsInv(c, s, w, a);
    } else {
      UnlinkKeepsInv(c, s, w, a);
    }
  }

  /** The actions that change no file. */
  ghost predicate Quiet<E>(a: Action<E>) {
    !a.TempCreate? && !a.Write? && !a.Rename? && !a.Unlink? && !a.Make? && !a.Create? && !a.Fill? && !a.Read?
  }

  lemma QuietKeepsInv<E(!new)>(c: Codec<E>, s: State<E>, w: nat, a: Action<E>)
    requires Sound(c) && Inv(c, s) && w < |s.phases| && Enabled(c, NoFaults, s, w, a) && Quiet(a)
    ensures Inv(c, Apply(c, NoFaults, s, w, a))
  {
    var p := s.phases[w];
    assert PhaseOk(c, s.dir, s.data, p);
    if p.MadeLocked? || p.MadeStated? {
      LinksOne(s.dir, Entry(p.name));
    }
    var r := Target(c, NoFaults, s, w, a);
    QuietTarget(c, s, w, a);
    QuietFiles(c, s, w, a);
    forall v | 0 <= v < |s.phases| && v != w ensures Apart(s.phases[v], r) {
      assert Apart(s.phases[v], p) && PhaseOk(c, s.dir, s.data, s.phases[v]);
    }
    MoveKeepsInv(c, s, w, r);
  }

  /** What a quiet action needs to enter its new phase. */
  lemma QuietTarget<E(!new)>(c: Codec<E>, s: State<E>, w: nat, a: Action<E>)
    requires w < |s.phases| && Enabled(c, NoFaults, s, w, a) && PhaseOk(c, s.dir, s.data, s.phases[w]) && Quiet(a)
    requires s.phases[w].MadeLocked? || s.phases[w].MadeStated? ==> Links(s.dir, s.phases[w].ino) == 1
    ensures DirAfter(c, NoFaults, s, w, a) == s.dir && DataAfter(c, NoFaults, s, w, a) == s.data
    ensures PhaseOk(c, s.dir, s.data, Target(c, NoFaults, s, w, a))
  {
    var p := s.phases[w];
    if p.Made? || p.MadeLocked? || p.MadeStated? {
      MakerTarget(c, s, w, a);
    }
  }

  lemma MakerTarget<E(!new)>(c: Codec<E>, s: State<E>, w: nat, a: Action<E>)
    requires w < |s.phases| && Enabled(c, NoFaults, s, w, a) && PhaseOk(c, s.dir, s.data, s.phases[w]) && Quiet(a)
    requires s.phases[w].Made? || ((s.phases[w].MadeLocked? || s.phases[w].MadeStated?) && Links(s.dir, s.phases[w].ino) == 1)
    ensures DirAfter(c, NoFaults, s, w, a) == s.dir
    ensures PhaseOk(c, s.dir, s.data, Target(c, NoFaults, s, w, a))
  {
    assert "" + c.encode(s.phases[w].env) == c.encode(s.phases[w].env);
  }

  /** The files a worker has after a quiet action: those it had, or the one it opens. */
  lemma QuietFiles<E(!new)>(c: Codec<E>, s: State<E>, w: nat, a: Action<E>)
    requires w < |s.phases| && Enabled(c, NoFaults, s, w, a) && Quiet(a)
    ensures
      var p, r := s.phases[w], Target(c, NoFaults, s, w, a);
      && (forall i :: i in r.Locks() && i !in p.Locks() ==> i !in s.locks)
      && (r.Making() ==> p.Making() && r.name == p.name)
      && (r.TempOpened? || r.Writing? ==> p.TempOpened? && r.tino == p.tino)
      && (forall i :: i in r.Opens() ==> i in p.Opens() || (a.Open? && i == s.dir[Entry(a.q)]))
  {
  }
}
