/** What the queue protocol loses when flock fails on fresh files, or when writes fall short. */
module QueueFaults {
  import opened Wrappers
  import opened QueueProtocol
  import opened QueueRefinement
  import L = LockedStore

  const HardLocks: Faults := Faults(true, false)
  const ShortWrites: Faults := Faults(false, true)

  /** What can happen with some faults can happen with more. */
  lemma MoreFaults<E(!new)>(c: Codec<E>, some: Faults, more: Faults, run: seq<State<E>>)
    requires (some.hard ==> more.hard) && (some.short ==> more.short) && IsRun(c, some, run)
    ensures IsRun(c, more, run)
  {
    forall i | 0 <= i < |run| - 1 ensures StepAt(c, more, run, i) {
      assert StepAt(c, some, run, i);
      MoreSteps(c, some, more, run[i], run[i + 1]);
    }
  }

  lemma MoreSteps<E(!new)>(c: Codec<E>, some: Faults, more: Faults, s: State<E>, t: State<E>)
    requires (some.hard ==> more.hard) && (some.short ==> more.short) && Next(c, some, s, t)
    ensures Next(c, more, s, t)
  {
    var w: nat, a :| w < |s.phases| && Enabled(c, some, s, w, a) && t == Apply(c, some, s, w, a);
    assert Enabled(c, more, s, w, a) && t == Apply(c, more, s, w, a);
  }

  // ---- flock fails on a file just made ----

  /** The states of a run with three workers. Worker 1 owns a file that its creator, worker 0, has not
      yet locked; flock then fails for worker 0, which unlinks the name; worker 2 makes the name anew. */
  ghost function Stage<E>(c: Codec<E>, e: E, i: nat): State<E> {
    var q := Entry("q");
    match i
    case 0 => State(map[], map[], map[], [Idle, Idle, Idle])
    case 1 => State(map[q := 0], map[0 := ""], map[], [Made("q", 0, e), Idle, Idle])
    case 2 => State(map[q := 0], map[0 := ""], map[], [Made("q", 0, e), Opened("q", 0), Idle])
    case 3 => State(map[q := 0], map[0 := ""], map[0 := 1], [Made("q", 0, e), Locked("q", 0), Idle])
    case 4 => State(map[q := 0], map[0 := ""], map[0 := 1], [Made("q", 0, e), Stated("q", 0, 0, 1), Idle])
    case 5 => State(map[q := 0], map[0 := ""], map[0 := 1], [Made("q", 0, e), Checked("q", 0), Idle])
    case 6 => State(map[], map[0 := ""], map[0 := 1], [Idle, Checked("q", 0), Idle])
    case 7 => State(map[q := 1], map[0 := "", 1 := ""], map[0 := 1], [Idle, Checked("q", 0), Made("q", 1, e)])
    case 8 => State(map[q := 1], map[0 := "", 1 := ""], map[0 := 1, 1 := 2], [Idle, Checked("q", 0), MadeLocked("q", 1, e)])
    case 9 => State(map[q := 1], map[0 := "", 1 := ""], map[0 := 1, 1 := 2], [Idle, Checked("q", 0), MadeStated("q", 1, e, 0, 1)])
    case _ => State(map[q := 1], map[0 := "", 1 := ""], map[0 := 1, 1 := 2], [Idle, Checked("q", 0), Filling("q", 1, e, c.encode(e))])
  }

  lemma Take<E(!new)>(c: Codec<E>, s: State<E>, w: nat, a: Action<E>, t: State<E>)
    requires w < |s.phases| && Enabled(c, HardLocks, s, w, a) && t == Apply(c, HardLocks, s, w, a)
    ensures Next(c, HardLocks, s, t)
  {
  }

  /** A move that neither takes nor gives up a lock. */
  lemma SameLocks<E>(s: State<E>, w: nat, p: Phase<E>)
    requires w < |s.phases| && p.Locks() == s.phases[w].Locks()
    requires forall i :: i in p.Locks() ==> i in s.locks && s.locks[i] == w
    ensures Move(s, w, p) == s.(phases := s.phases[w := p])
  {
  }

  lemma FirstStages<E(!new)>(c: Codec<E>, e: E, i: nat)
    requires c.valid(e) && c.blank.None? && 0 <= i < 2
    ensures Next(c, HardLocks, Stage(c, e, i), Stage(c, e, i + 1))
  {
    var s, t := Stage(c, e, i), Stage(c, e, i + 1);
    match i
    case 0 => Take(c, s, 0, Make("q", 0, e), t);
    case 1 => Take(c, s, 1, Open("q"), t);
  }

  lemma SecondStages<E(!new)>(c: Codec<E>, e: E, i: nat)
    requires c.valid(e) && 2 <= i < 4
    ensures Next(c, HardLocks, Stage(c, e, i), Stage(c, e, i + 1))
  {
    LinksOne(map[Entry("q") := 0], Entry("q"));
    var s, t := Stage(c, e, i), Stage(c, e, i + 1);
    match i
    case 2 => Take(c, s, 1, Lock, t);
    case 3 => Take(c, s, 1, Fstat, t);
  }

  lemma ThirdStages<E(!new)>(c: Codec<E>, e: E, i: nat)
    requires c.valid(e) && c.blank.None? && 4 <= i < 6
    ensures Next(c, HardLocks, Stage(c, e, i), Stage(c, e, i + 1))
  {
    LinksOne(map[Entry("q") := 0], Entry("q"));
    var s, t := Stage(c, e, i), Stage(c, e, i + 1);
    match i
    case 4 =>
      SameLocks(s, 1, Checked("q", 0));
      Take(c, s, 1, Stat, t);
    case 5 => Take(c, s, 0, MakeLockError, t);
  }

  lemma FourthStage<E(!new)>(c: Codec<E>, e: E)
    requires c.valid(e) && c.blank.None?
    ensures Next(c, HardLocks, Stage(c, e, 6), Stage(c, e, 7))
  {
    Take(c, Stage(c, e, 6), 2, Make("q", 1, e), Stage(c, e, 7));
  }

  lemma LockStage<E(!new)>(c: Codec<E>, e: E)
    ensures Next(c, HardLocks, Stage(c, e, 7), Stage(c, e, 8))
  {
    Take(c, Stage(c, e, 7), 2, MakeLock, Stage(c, e, 8));
  }

  lemma FifthStage<E(!new)>(c: Codec<E>, e: E, i: nat)
    requires c.valid(e) && i == 8
    ensures Next(c, HardLocks, Stage(c, e, i), Stage(c, e, i + 1))
  {
    LinksOne(map[Entry("q") := 1], Entry("q"));
    SameLocks(Stage(c, e, i), 2, MadeStated("q", 1, e, 0, 1));
    Take(c, Stage(c, e, i), 2, MakeFstat, Stage(c, e, i + 1));
  }

  lemma LastStage<E(!new)>(c: Codec<E>, e: E, i: nat)
    requires c.valid(e) && i == 9
    ensures Next(c, HardLocks, Stage(c, e, i), Stage(c, e, i + 1))
  {
    LinksOne(map[Entry("q") := 1], Entry("q"));
    SameLocks(Stage(c, e, i), 2, Filling("q", 1, e, c.encode(e)));
    Take(c, Stage(c, e, i), 2, MakeStat, Stage(c, e, i + 1));
  }

  lemma StageStep<E(!new)>(c: Codec<E>, e: E, i: nat)
    requires c.valid(e) && c.blank.None? && i < 10
    ensures Next(c, HardLocks, Stage(c, e, i), Stage(c, e, i + 1))
  {
    if i < 2 {
      FirstStages(c, e, i);
    } else if i < 4 {
      SecondStages(c, e, i);
    } else if i < 6 {
      ThirdStages(c, e, i);
    } else if i < 7 {
      FourthStage(c, e);
    } else if i < 8 {
      LockStage(c, e);
    } else if i < 9 {
      FifthStage(c, e, i);
    } else {
      LastStage(c, e, i);
    }
  }

  /** A hard flock failure on a fresh file leads to two owners of one name. */
  lemma HardFailureBreaksExclusion<E(!new)>(c: Codec<E>, e: E) returns (run: seq<State<E>>)
    requires Sound(c) && c.valid(e) && c.blank.None?
    ensures IsRun(c, HardLocks, run) && |run[|run| - 1].phases| == 3
    ensures run[|run| - 1].phases[1].Owns("q") && run[|run| - 1].phases[2].Owns("q")
  {
    run := seq(11, i requires 0 <= i < 11 => Stage(c, e, i));
    forall i | 0 <= i < |run| - 1 ensures StepAt(c, HardLocks, run, i) {
      StageStep(c, e, i);
    }
    assert Init(c, Stage(c, e, 0));
    assert run[10] == Stage(c, e, 10);
  }

  /** Exclusion holds in every run exactly when flock never fails on a freshly made file, or files are never
      made that way. */
  lemma ExclusionIffFreshFilesLock<E(!new)>(c: Codec<E>, hard: bool, e: E)
    requires Sound(c) && c.valid(e)
    ensures var faults := Faults(hard, false);
            (forall run: seq<State<E>>, i :: IsRun(c, faults, run) && 0 <= i < |run| ==> Exclusive(run[i])) <==> !hard || c.blank.Some?
  {
    var faults := Faults(hard, false);
    if hard && c.blank.None? {
      var run := HardFailureBreaksExclusion(c, e);
      assert !Exclusive(run[|run| - 1]);
    } else {
      forall run: seq<State<E>>, i | IsRun(c, faults, run) && 0 <= i < |run| ensures Exclusive(run[i]) {
        if hard {
          HardLocksHarmless(c, run);
        }
        RunRefinesStore(c, run, i);
      }
    }
  }

  /** Where files are not made by mkqf, flock cannot fail on one. */
  lemma HardLocksHarmless<E(!new)>(c: Codec<E>, run: seq<State<E>>)
    requires c.blank.Some? && IsRun(c, HardLocks, run)
    ensures IsRun(c, NoFaults, run)
  {
    forall i | 0 <= i < |run| - 1 ensures StepAt(c, NoFaults, run, i) {
      assert StepAt(c, HardLocks, run, i);
      SameSteps(c, run[i], run[i + 1]);
    }
  }

  lemma SameSteps<E(!new)>(c: Codec<E>, s: State<E>, t: State<E>)
    requires c.blank.Some? && Next(c, HardLocks, s, t)
    ensures Next(c, NoFaults, s, t)
  {
    var w: nat, a :| w < |s.phases| && Enabled(c, HardLocks, s, w, a) && t == Apply(c, HardLocks, s, w, a);
    assert Enabled(c, NoFaults, s, w, a) && t == Apply(c, NoFaults, s, w, a);
  }

  // ---- a write falls short ----

  /** The states of a run with one worker that rewrites entry "q" from `e` to `next`, loses all it writes and
      renames the empty file over the name. */
  ghost function ShortStage<E>(c: Codec<E>, e: E, next: E, i: nat): State<E> {
    var q, t := Entry("q"), Temp("q", 0);
    var bytes := c.encode(e);
    match i
    case 0 => State(map[q := 0], map[0 := bytes], map[], [Idle])
    case 1 => State(map[q := 0], map[0 := bytes], map[], [Opened("q", 0)])
    case 2 => State(map[q := 0], map[0 := bytes], map[0 := 0], [Locked("q", 0)])
    case 3 => State(map[q := 0], map[0 := bytes], map[0 := 0], [Stated("q", 0, |bytes|, 1)])
    case 4 => State(map[q := 0], map[0 := bytes], map[0 := 0], [Checked("q", 0)])
    case 5 => State(map[q := 0], map[0 := bytes], map[0 := 0], [Holding("q", 0, e)])
    case 6 => State(map[q := 0, t := 1], map[0 := bytes, 1 := ""], map[0 := 0], [TempOpened("q", 0, e, 0, 1, next)])
    case 7 => State(map[q := 0, t := 1], map[0 := bytes, 1 := ""], map[0 := 0, 1 := 0], [Writing("q", 0, e, 0, 1, next, c.encode(next))])
    case 8 => State(map[q := 0, t := 1], map[0 := bytes, 1 := ""], map[0 := 0, 1 := 0], [Writing("q", 0, e, 0, 1, next, "")])
    case _ => State(map[q := 1], map[0 := bytes, 1 := ""], map[0 := 0, 1 := 0], [Swapped("q", 1, next, 0)])
  }

  lemma TakeShort<E(!new)>(c: Codec<E>, s: State<E>, a: Action<E>, t: State<E>)
    requires 0 < |s.phases| && Enabled(c, ShortWrites, s, 0, a) && t == Apply(c, ShortWrites, s, 0, a)
    ensures Next(c, ShortWrites, s, t)
  {
  }

  lemma ShortLocks<E(!new)>(c: Codec<E>, e: E, next: E, i: nat)
    requires i < 3
    ensures Next(c, ShortWrites, ShortStage(c, e, next, i), ShortStage(c, e, next, i + 1))
  {
    LinksOne(map[Entry("q") := 0], Entry("q"));
    var s, t := ShortStage(c, e, next, i), ShortStage(c, e, next, i + 1);
    match i
    case 0 => TakeShort(c, s, Open("q"), t);
    case 1 => TakeShort(c, s, Lock, t);
    case 2 => TakeShort(c, s, Fstat, t);
  }

  lemma ShortReads<E(!new)>(c: Codec<E>, e: E, next: E, i: nat)
    requires Sound(c) && c.valid(e) && 3 <= i < 5
    ensures Next(c, ShortWrites, ShortStage(c, e, next, i), ShortStage(c, e, next, i + 1))
  {
    LinksOne(map[Entry("q") := 0], Entry("q"));
    var s, t := ShortStage(c, e, next, i), ShortStage(c, e, next, i + 1);
    match i
    case 3 => TakeShort(c, s, Stat, t);
    case 4 => TakeShort(c, s, Read(0), t);
  }

  lemma ShortCreate<E(!new)>(c: Codec<E>, e: E, next: E)
    requires c.valid(next)
    ensures Next(c, ShortWrites, ShortStage(c, e, next, 5), ShortStage(c, e, next, 6))
  {
    TakeShort(c, ShortStage(c, e, next, 5), TempCreate(0, 1, next), ShortStage(c, e, next, 6));
  }

  lemma ShortTempLock<E(!new)>(c: Codec<E>, e: E, next: E)
    ensures Next(c, ShortWrites, ShortStage(c, e, next, 6), ShortStage(c, e, next, 7))
  {
    TakeShort(c, ShortStage(c, e, next, 6), TempLock, ShortStage(c, e, next, 7));
  }

  lemma ShortLoss<E(!new)>(c: Codec<E>, e: E, next: E)
    requires c.encode(next) != ""
    ensures Next(c, ShortWrites, ShortStage(c, e, next, 7), ShortStage(c, e, next, 8))
  {
    var s, t := ShortStage(c, e, next, 7), ShortStage(c, e, next, 8);
    var p, n := s.phases[0], |c.encode(next)|;
    assert p.rest[n..] == "";
    assert Move(s, 0, t.phases[0]) == t;
    TakeShort(c, s, Lose(n), t);
  }

  lemma ShortRename<E(!new)>(c: Codec<E>, e: E, next: E)
    ensures Next(c, ShortWrites, ShortStage(c, e, next, 8), ShortStage(c, e, next, 9))
  {
    var s, t := ShortStage(c, e, next, 8), ShortStage(c, e, next, 9);
    assert (s.dir - {Temp("q", 0)})[Entry("q") := 1] == t.dir;
    TakeShort(c, s, Rename, t);
  }

  /** With short writes a worker comes to hold a version that is not in its file any more, nor the last one. */
  lemma ShortWriteBreaksStore<E(!new)>(c: Codec<E>, next: E) returns (run: seq<State<E>>)
    requires Sound(c) && c.valid(next) && c.encode(next) != ""
    ensures IsRun(c, ShortWrites, run) && !L.Consistent(Abs(c, run[|run| - 1]))
  {
    run := seq(10, i requires 0 <= i < 10 => ShortStage(c, next, next, i));
    forall i | 0 <= i < |run| - 1 ensures StepAt(c, ShortWrites, run, i) {
      if i < 3 {
        ShortLocks(c, next, next, i);
      } else if i < 5 {
        ShortReads(c, next, next, i);
      } else if i < 6 {
        ShortCreate(c, next, next);
      } else if i < 7 {
        ShortTempLock(c, next, next);
      } else if i < 8 {
        ShortLoss(c, next, next);
      } else {
        ShortRename(c, next, next);
      }
    }
    StartsWhole(c, next);
    EmptyIsAnother(c, next);
    var s := ShortStage(c, next, next, 9);
    assert run[9] == s && s.phases[0].Holds();
    assert Abs(c, s).held[0] == Some(L.Held("q", next));
    assert OnDisk(c, s.dir, s.data, "q") == c.decode(0, "");
  }

  lemma StartsWhole<E(!new)>(c: Codec<E>, e: E)
    requires Sound(c) && c.valid(e)
    ensures Init(c, ShortStage(c, e, e, 0))
  {
    assert WholeOrNone(c, c.encode(e));
  }

  lemma EmptyIsAnother<E(!new)>(c: Codec<E>, e: E)
    requires Sound(c) && c.valid(e) && c.encode(e) != ""
    ensures c.decode(0, "") != Some(e)
  {
    if c.blank.Some? {
      assert c.decode(0, c.encode(c.blank.value)) == c.blank;
    } else {
      assert "" < c.encode(e);
    }
  }

  /** Main result: every run is a run of the locked store, whose entries change only from the version their
      one holder has to the next and survive a crash anywhere, exactly when no write falls short and, where
      files are made by mkqf, flock does not fail on them. */
  lemma StoreIffNoFaults<E(!new)>(c: Codec<E>, faults: Faults, e: E)
    requires Sound(c) && c.valid(e) && c.encode(e) != ""
    ensures (forall run: seq<State<E>>, i :: IsRun(c, faults, run) && 0 <= i < |run| ==> L.Consistent(Abs(c, run[i])) && Exclusive(run[i]))
       <==> !faults.short && (!faults.hard || c.blank.Some?)
  {
    if faults.short {
      var run := ShortWriteBreaksStore(c, e);
      MoreFaults(c, ShortWrites, faults, run);
      assert !L.Consistent(Abs(c, run[|run| - 1]));
    } else if faults.hard && c.blank.None? {
      var run := HardFailureBreaksExclusion(c, e);
      MoreFaults(c, HardLocks, faults, run);
      assert !Exclusive(run[|run| - 1]);
    } else {
      forall run: seq<State<E>>, i | IsRun(c, faults, run) && 0 <= i < |run| ensures L.Consistent(Abs(c, run[i])) && Exclusive(run[i]) {
        if faults.hard {
          HardLocksHarmless(c, run);
        }
        RunRefinesStore(c, run, i);
      }
    }
  }
}
