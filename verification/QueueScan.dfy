/**
  One pass of the file queue's runner over its directories: run_dir and the directory stack of
  mms_queue_run. Directories are worked off in the order they are found, and each entry that can be
  locked, read and is due goes to the next sender thread in turn.
 */
module QueueScan {
  import opened Wrappers

  /** What a scan meets: an entry that is due, one that is not yet, one that cannot be locked or read (or
      another file), and a directory, which may fail to open. */
  datatype Node =
    | Due(id: string)
    | NotYet(id: string)
    | Unreadable
    | Dir(name: string, nodes: seq<Node>, opens: bool)

  // ---- what there is to find below a list of nodes ----

  function DueIn(nodes: seq<Node>): multiset<string> {
    if nodes == [] then multiset{} else DueAt(nodes[0]) + DueIn(nodes[1..])
  }

  function DueAt(x: Node): multiset<string> {
    match x
    case Due(id) => multiset{id}
    case Dir(_, inner, _) => DueIn(inner)
    case _ => multiset{}
  }

  function NotYetIn(nodes: seq<Node>): multiset<string> {
    if nodes == [] then multiset{} else NotYetAt(nodes[0]) + NotYetIn(nodes[1..])
  }

  function NotYetAt(x: Node): multiset<string> {
    match x
    case NotYet(id) => multiset{id}
    case Dir(_, inner, _) => NotYetIn(inner)
    case _ => multiset{}
  }

  /** The names of all directories. */
  function DirsIn(nodes: seq<Node>): multiset<string> {
    if nodes == [] then multiset{} else DirsAt(nodes[0]) + DirsIn(nodes[1..])
  }

  function DirsAt(x: Node): multiset<string> {
    match x
    case Dir(name, inner, _) => multiset{name} + DirsIn(inner)
    case _ => multiset{}
  }

  /** Every directory can be opened. */
  predicate AllOpen(nodes: seq<Node>) {
    nodes != [] ==> OpenAt(nodes[0]) && AllOpen(nodes[1..])
  }

  predicate OpenAt(x: Node) {
    x.Dir? ==> x.opens && AllOpen(x.nodes)
  }

  /** The number of nodes, at all depths. */
  function Size(nodes: seq<Node>): nat {
    if nodes == [] then 0 else SizeAt(nodes[0]) + Size(nodes[1..])
  }

  function SizeAt(x: Node): nat {
    match x
    case Dir(_, inner, _) => 1 + Size(inner)
    case _ => 1
  }

  lemma {:induction false} SumsAppend(a: seq<Node>, b: seq<Node>)
    ensures DueIn(a + b) == DueIn(a) + DueIn(b) && NotYetIn(a + b) == NotYetIn(a) + NotYetIn(b)
  {
    if a == [] {
      assert a + b == b;
    } else {
      assert (a + b)[1..] == a[1..] + b;
      SumsAppend(a[1..], b);
    }
  }

  lemma {:induction false} DirsAppend(a: seq<Node>, b: seq<Node>)
    ensures DirsIn(a + b) == DirsIn(a) + DirsIn(b) && Size(a + b) == Size(a) + Size(b)
    ensures AllOpen(a + b) <==> AllOpen(a) && AllOpen(b)
  {
    if a == [] {
      assert a + b == b;
    } else {
      assert (a + b)[1..] == a[1..] + b;
      DirsAppend(a[1..], b);
    }
  }

  lemma SumsOne(x: Node)
    ensures DueIn([x]) == DueAt(x) && NotYetIn([x]) == NotYetAt(x) && DirsIn([x]) == DirsAt(x) && Size([x]) == SizeAt(x)
    ensures AllOpen([x]) <==> OpenAt(x)
  {
    assert [x][1..] == [];
  }

  // ---- the threads ----

  function Total(handed: seq<seq<string>>): multiset<string> {
    if handed == [] then multiset{} else multiset(handed[0]) + Total(handed[1..])
  }

  lemma {:induction false} NothingHanded(handed: seq<seq<string>>)
    requires forall i :: 0 <= i < |handed| ==> handed[i] == []
    ensures Total(handed) == multiset{}
  {
    if handed != [] {
      NothingHanded(handed[1..]);
    }
  }

  lemma {:induction false} TotalGrows(handed: seq<seq<string>>, i: nat, id: string)
    requires i < |handed|
    ensures Total(handed[i := handed[i] + [id]]) == Total(handed) + multiset{id}
  {
    var t := handed[i := handed[i] + [id]];
    if i == 0 {
      assert t[1..] == handed[1..];
    } else {
      assert t[1..] == handed[1..][i - 1 := handed[i] + [id]];
      TotalGrows(handed[1..], i - 1, id);
    }
  }

  /** The threads before the one whose turn it is have been handed `n` + 1 entries, the others `n`. */
  ghost predicate Level(handed: seq<seq<string>>, next: nat, n: nat) {
    forall i :: 0 <= i < |handed| ==> |handed[i]| == if i < next then n + 1 else n
  }

  ghost predicate Fair(handed: seq<seq<string>>, next: nat) {
    exists n: nat :: Level(handed, next, n)
  }

  function After(next: nat, n: nat): (i: nat)
    requires next < n
    ensures i < n
  {
    if next + 1 == n then 0 else next + 1
  }

  lemma FairGrows(handed: seq<seq<string>>, next: nat, id: string)
    requires Fair(handed, next) && next < |handed|
    ensures Fair(handed[next := handed[next] + [id]], After(next, |handed|))
  {
    var n: nat :| Level(handed, next, n);
    var t := handed[next := handed[next] + [id]];
    if next + 1 == |handed| {
      assert Level(t, 0, n + 1);
    } else {
      assert Level(t, next + 1, n);
    }
  }

  ghost predicate SomeAlive(alive: seq<bool>) {
    exists i :: 0 <= i < |alive| && alive[i]
  }

  ghost predicate AllAlive(alive: seq<bool>) {
    forall i :: 0 <= i < |alive| ==> alive[i]
  }

  /** The runner: what each thread was ever handed, whose turn it is, what was let go of again, and the
      directories still to be read and read already. */
  class Runner {
    const alive: seq<bool>
    var handed: seq<seq<string>>
    var next: nat
    var released: multiset<string>
    var stack: seq<Node>
    var visited: multiset<string>

    ghost predicate Valid()
      reads this
    {
      && |handed| == |alive| && next < |alive|
      && forall i :: 0 <= i < |stack| ==> stack[i].Dir?
    }

    /** If all threads are alive, they have been handed equally many entries, give or take one. */
    ghost predicate Balanced()
      reads this
    {
      AllAlive(alive) ==> Fair(handed, next)
    }

    constructor (alive: seq<bool>)
      requires alive != []
      ensures Valid() && Balanced() && this.alive == alive && stack == []
      ensures Total(handed) == multiset{} && released == multiset{} && visited == multiset{}
    {
      this.alive := alive;
      handed := seq(|alive|, _ => []);
      next := 0;
      released := multiset{};
      visited := multiset{};
      stack := [];
      new;
      NothingHanded(handed);
      assert Level(handed, 0, 0);
    }

    /** Gives an entry to the next thread that is alive; with none, it is let go. */
    method Hand(id: string) returns (queued: bool)
      requires Valid() && Balanced()
      modifies this`handed, this`next, this`released
      ensures Valid() && Balanced()
      ensures queued <==> SomeAlive(alive)
      ensures queued ==> Total(handed) == Total(old(handed)) + multiset{id} && released == old(released)
      ensures !queued ==> Total(handed) == Total(old(handed)) && released == old(released) + multiset{id}
    {
      var j := next;
      var tried := 0;
      while tried < |alive|
        invariant tried <= |alive| && next < |alive| && j == old(next)
        invariant handed == old(handed) && released == old(released)
        invariant next == if j + tried < |alive| then j + tried else j + tried - |alive|
        invariant tried > 0 ==> !alive[j]
        invariant forall i :: 0 <= i < |alive| && (j <= i < j + tried || i + |alive| < j + tried) ==> !alive[i]
      {
        if alive[next] {
          TotalGrows(handed, next, id);
          if AllAlive(alive) && Fair(handed, next) {
            FairGrows(handed, next, id);
          }
          handed := handed[next := handed[next] + [id]];
          next := After(next, |alive|);
          return true;
        }
        next := After(next, |alive|);
        tried := tried + 1;
      }
      assert !alive[j];
      released := released + multiset{id};
      queued := false;
    }
  
    /** One entry of a directory. The answer is false if there was no thread to give it to. */
    method Take(x: Node) returns (ok: bool)
      requires Valid() && Balanced()
      modifies this`handed, this`next, this`released, this`stack
      ensures Valid() && Balanced()
      ensures ok <==> !x.Due? || SomeAlive(alive)
      ensures ok ==> Total(handed) == Total(old(handed)) + Found(x)
      ensures ok ==> released == old(released) + LetGo(x)
      ensures stack == old(stack) + Pushed(x)
      ensures !ok ==> Total(handed) == Total(old(handed)) && released == old(released) + multiset{x.id}
    {
      ok := true;
      if x.Due? {
        ok := Hand(x.id);
      } else if x.NotYet? {
        released := released + multiset{x.id};
      } else if x.Dir? {
        stack := stack + [x];
      }
    }

    /** How the pass stands. */
    ghost predicate Stands(g: Goal, rest: seq<Node>)
      reads this
    {
      Valid() && Balanced() && Adds(g, Total(handed), released, visited, stack, rest)
    }

    /** The first of the nodes that are left. */
    method TakeFirst(nodes: seq<Node>, ghost g: Goal) returns (ok: bool)
      requires Stands(g, nodes) && nodes != []
      modifies this`handed, this`next, this`released, this`stack
      ensures ok ==> Stands(g, nodes[1..]) && Size(stack) + Size(nodes[1..]) <= Size(old(stack)) + Size(nodes)
      ensures ok ==> SomeAlive(alive) || Total(handed) == Total(old(handed))
      ensures !ok ==> Valid() && Balanced() && !SomeAlive(alive) && DueIn(nodes) != multiset{} && Total(handed) == Total(old(handed))
    {
      AddsOn(g, Total(handed), released, visited, stack, nodes);
      ok := Take(nodes[0]);
      if !ok {
        assert nodes[0].id in DueIn(nodes);
      }
    }

    /** The entries of a directory. */
    method TakeAll(nodes: seq<Node>, ghost g: Goal) returns (ok: bool)
      requires Stands(g, nodes)
      modifies this`handed, this`next, this`released, this`stack
      ensures ok ==> Stands(g, []) && Size(stack) <= Size(old(stack)) + Size(nodes)
      ensures ok ==> SomeAlive(alive) || Total(handed) == Total(old(handed))
      ensures !ok ==> NobodyThere(g, Total(old(handed)))
    {
      var left := nodes;
      while left != []
        invariant Stands(g, left) && Size(stack) + Size(left) <= Size(old(stack)) + Size(nodes)
        invariant SomeAlive(alive) || Total(handed) == Total(old(handed))
        decreases |left|
      {
        ok := TakeFirst(left, g);
        if !ok {
          return;
        }
        left := left[1..];
      }
      ok := true;
    }

    /** A due entry was met and no thread is alive; none was handed out since `before`. */
    ghost predicate NobodyThere(g: Goal, before: multiset<string>)
      reads this
    {
      Valid() && Balanced() && !SomeAlive(alive) && g.due - before != multiset{} && Total(handed) == before
    }

    /** run_dir: 0, or -1 if the directory does not open, or -2 if there is no thread for a due entry. */
    method RunDir(x: Node, ghost g: Goal) returns (ret: int)
      requires x.Dir? && Stands(g, [x])
      modifies this`handed, this`next, this`released, this`stack, this`visited
      ensures ret == 0 || ret == -1 || ret == -2
      ensures ret == 0 ==> Stands(g, []) && Size(stack) < Size(old(stack)) + SizeAt(x)
      ensures ret == 0 ==> SomeAlive(alive) || Total(handed) == Total(old(handed))
      ensures ret == -1 ==> Closed(g, x) && handed == old(handed)
      ensures ret == -2 ==> NobodyThere(g, Total(old(handed)))
    {
      SumsOne(x);
      if !x.opens {
        return -1;
      }
      visited := visited + multiset{x.name};
      var ok := TakeAll(x.nodes, g);
      ret := if ok then 0 else -2;
    }

    /** Takes the directory on top of the stack and runs it. */
    method RunNext(ghost g: Goal) returns (ret: int, x: Node)
      requires Stands(g, []) && stack != []
      modifies this`handed, this`next, this`released, this`stack, this`visited
      ensures ret == 0 || ret == -1 || ret == -2
      ensures ret == 0 ==> Stands(g, []) && Size(stack) < Size(old(stack)) && (SomeAlive(alive) || Total(handed) == Total(old(handed)))
      ensures ret == -1 ==> Closed(g, x) && handed == old(handed)
      ensures ret == -2 ==> NobodyThere(g, Total(old(handed)))
    {
      x := stack[0];
      Popped(g, Total(handed), released, visited, stack);
      stack := stack[1..];
      ret := RunDir(x, g);
    }

    /** The pass stopped at a directory that does not open: it and what is on the stack are still to be done. */
    ghost predicate Closed(g: Goal, x: Node)
      reads this
    {
      x.Dir? && !x.opens && Stands(g, [x]) && !g.open
    }

    /** One pass of mms_queue_run over the directory `root` and whatever an earlier pass left on the stack:
        it reads every directory once and hands out every due entry once, exactly when all directories open
        and there is a thread, or nothing to hand out. */
    method Pass(root: Node, ghost g: Goal) returns (ret: int, x: Node)
      requires root.Dir? && Valid() && Balanced() && g == GoalOf(Total(handed), released, visited, stack + [root])
      modifies this
      ensures Valid() && Balanced()
      ensures ret == 0 <==> g.open && (SomeAlive(alive) || g.due == Total(old(handed)))
      ensures ret == 0 ==> stack == [] && Total(handed) == g.due && released == g.notYet && visited == g.dirs
      ensures ret == -1 ==> Closed(g, x)
      ensures ret == 0 || ret == -1 || (ret == -2 && NobodyThere(g, Total(old(handed))))
    {
      stack := stack + [root];
      x := root;
      ghost var before := Total(handed);
      StartsAdding(g, before, released, visited, stack);
      while stack != []
        invariant Stands(g, []) && (SomeAlive(alive) || Total(handed) == before)
        decreases Size(stack)
      {
        ret, x := RunNext(g);
        if ret < 0 {
          return;
        }
      }
      EndsAdding(g, Total(handed), released, visited);
      ret := 0;
    }
  }

  /** What was found so far, with what is in `rest` and on the stack, is all there was. */
  ghost predicate Adds(g: Goal, total: multiset<string>, released: multiset<string>, visited: multiset<string>, stack: seq<Node>, rest: seq<Node>) {
    && total + DueIn(rest) + DueIn(stack) == g.due
    && released + NotYetIn(rest) + NotYetIn(stack) == g.notYet
    && visited + DirsIn(rest) + DirsIn(stack) == g.dirs
    && (AllOpen(rest) && AllOpen(stack) <==> g.open)
  }

  function Found(x: Node): multiset<string> {
    if x.Due? then multiset{x.id} else multiset{}
  }

  function LetGo(x: Node): multiset<string> {
    if x.NotYet? then multiset{x.id} else multiset{}
  }

  function Pushed(x: Node): seq<Node> {
    if x.Dir? then [x] else []
  }

  lemma Regroup(a: multiset<string>, b: multiset<string>, c: multiset<string>, d: multiset<string>)
    ensures a + (b + c) + d == a + b + c + d && a + (b + c) + d == a + c + (d + b)
  {
  }

  lemma Nothing(a: multiset<string>)
    ensures a + multiset{} == a && multiset{} + a == a
  {
  }

  /** A node that is no directory adds what it is; a directory moves what is in it onto the stack. */
  lemma NodeAdds(x: Node, stack: seq<Node>)
    ensures !x.Dir? ==> DueAt(x) == Found(x) && NotYetAt(x) == LetGo(x) && DirsAt(x) == multiset{} && OpenAt(x)
    ensures x.Dir? ==> Found(x) == multiset{} && LetGo(x) == multiset{}
    ensures !x.Dir? ==> stack + Pushed(x) == stack
    ensures x.Dir? ==> DueIn(stack + Pushed(x)) == DueIn(stack) + DueAt(x) && NotYetIn(stack + Pushed(x)) == NotYetIn(stack) + NotYetAt(x)
    ensures x.Dir? ==> DirsIn(stack + Pushed(x)) == DirsIn(stack) + DirsAt(x) && Size(stack + Pushed(x)) == Size(stack) + SizeAt(x)
    ensures x.Dir? ==> (AllOpen(stack + Pushed(x)) <==> AllOpen(stack) && OpenAt(x))
  {
    if x.Dir? {
      SumsAppend(stack, [x]);
      DirsAppend(stack, [x]);
      SumsOne(x);
    }
  }

  /** Taking one node keeps the sums. */
  lemma AddsOn(g: Goal, total: multiset<string>, released: multiset<string>, visited: multiset<string>, stack: seq<Node>, rest: seq<Node>)
    requires rest != [] && Adds(g, total, released, visited, stack, rest)
    ensures Adds(g, total + Found(rest[0]), released + LetGo(rest[0]), visited, stack + Pushed(rest[0]), rest[1..])
    ensures Size(stack + Pushed(rest[0])) + Size(rest[1..]) <= Size(stack) + Size(rest)
  {
    var x := rest[0];
    NodeAdds(x, stack);
    Regroup(total, DueAt(x), DueIn(rest[1..]), DueIn(stack));
    Regroup(released, NotYetAt(x), NotYetIn(rest[1..]), NotYetIn(stack));
    Regroup(visited, DirsAt(x), DirsIn(rest[1..]), DirsIn(stack));
    Nothing(total);
    Nothing(released);
    Nothing(visited);
  }

  /** What a pass is about: the due and not yet due entries and the directories there are, and whether all of these open. */
  datatype Goal = Goal(due: multiset<string>, notYet: multiset<string>, dirs: multiset<string>, open: bool)

  function GoalOf(total: multiset<string>, released: multiset<string>, visited: multiset<string>, stack: seq<Node>): Goal {
    Goal(total + DueIn(stack), released + NotYetIn(stack), visited + DirsIn(stack), AllOpen(stack))
  }

  lemma StartsAdding(g: Goal, total: multiset<string>, released: multiset<string>, visited: multiset<string>, stack: seq<Node>)
    requires g == GoalOf(total, released, visited, stack)
    ensures Adds(g, total, released, visited, stack, [])
  {
    Nothing(total);
    Nothing(released);
    Nothing(visited);
  }

  lemma EndsAdding(g: Goal, total: multiset<string>, released: multiset<string>, visited: multiset<string>)
    requires Adds(g, total, released, visited, [], [])
    ensures total == g.due && released == g.notYet && visited == g.dirs && g.open
  {
    Nothing(total);
    Nothing(released);
    Nothing(visited);
  }

  /** The directory on top of the stack is taken off it. */
  lemma Popped(g: Goal, total: multiset<string>, released: multiset<string>, visited: multiset<string>, stack: seq<Node>)
    requires stack != [] && Adds(g, total, released, visited, stack, [])
    ensures Adds(g, total, released, visited, stack[1..], [stack[0]]) && Size(stack) == SizeAt(stack[0]) + Size(stack[1..])
  {
    SumsOne(stack[0]);
    Nothing(total);
    Nothing(released);
    Nothing(visited);
  }
}
