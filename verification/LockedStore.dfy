/**
  What the queue promises its users: a store of whole envelopes, each held by at most one worker,
  replaced only by its holder and only in one step from the version the holder has.
 */
module LockedStore {
  import opened Wrappers

  /** An entry in a worker's hand. */
  datatype Held<+E> = Held(q: string, env: E)

  /** `held[w]` is the entry worker `w` has, with the version it last read or wrote. */
  datatype Store<+E> = Store(entries: imap<string, E>, held: seq<Option<Held<E>>>)

  datatype Op<+E> = Acquire(q: string) | Replace(next: E) | Delete | Drop | Create(q: string, env: E) | Stutter

  ghost predicate HeldBy<E>(s: Store<E>, w: nat, q: string) {
    w < |s.held| && s.held[w].Some? && s.held[w].value.q == q
  }

  /** Worker `w` performs one operation. Dropping covers giving an entry up and crashing. */
  ghost predicate Step<E>(s: Store<E>, t: Store<E>, w: nat, op: Op<E>) {
    && w < |s.held|
    && match op
       case Acquire(q) =>
         && q in s.entries && (forall v: nat :: !HeldBy(s, v, q)) && s.held[w].None?
         && t == s.(held := s.held[w := Some(Held(q, s.entries[q]))])
       case Replace(next) =>
         && s.held[w].Some?
         && var Held(q, e) := s.held[w].value;
            && q in s.entries && s.entries[q] == e
            && t == Store(s.entries[q := next], s.held[w := Some(Held(q, next))])
       case Delete =>
         && s.held[w].Some?
         && var Held(q, e) := s.held[w].value;
            && q in s.entries && s.entries[q] == e
            && t == Store(imap x | x in s.entries && x != q :: s.entries[x], s.held[w := None])
       case Drop => t == s.(held := s.held[w := None])
       case Create(q, e) => q !in s.entries && t == s.(entries := s.entries[q := e])
       case Stutter => t == s
  }

  ghost predicate Next<E(!new)>(s: Store<E>, t: Store<E>) {
    exists w, op :: Step(s, t, w, op)
  }

  /** Holders have current versions, and no entry has two holders. */
  ghost predicate Consistent<E>(s: Store<E>) {
    && (forall w :: 0 <= w < |s.held| && s.held[w].Some? ==>
          s.held[w].value.q in s.entries && s.entries[s.held[w].value.q] == s.held[w].value.env)
    && (forall v, w :: 0 <= v < |s.held| && 0 <= w < |s.held| && v != w && s.held[v].Some? && s.held[w].Some? ==>
          s.held[v].value.q != s.held[w].value.q)
  }

  /** An entry changes or disappears only at the hands of the worker that holds it. */
  lemma OnlyHolderChanges<E>(s: Store<E>, t: Store<E>, w: nat, op: Op<E>, q: string)
    requires Consistent(s) && Step(s, t, w, op) && q in s.entries
    requires q !in t.entries || t.entries[q] != s.entries[q]
    ensures HeldBy(s, w, q) && s.held[w].value.env == s.entries[q]
    ensures forall v: nat :: v != w ==> !HeldBy(s, v, q)
    ensures if op.Delete? then q !in t.entries else op.Replace? && q in t.entries && t.entries[q] == op.next
  {
  }
}
